/** Length-prefixed frames: envelopes, the one-shot reading of a byte stream, and the incremental decoder. */
module Frames {
  import opened Basics
  import opened Protocol

  // ---------------------------------------------------------------- one-shot reading

  predicate FrameLength(length: nat) {
    5 <= length <= MAX_FRAME
  }

  /** What a whole stream comes to: its complete frames, and either an unfinished frame or, when
      `broken`, the bytes from an impossible length on. */
  datatype Stream = Stream(frames: seq<seq<byte>>, rest: seq<byte>, broken: bool)

  function Read(stream: seq<byte>): (s: Stream)
    ensures |s.rest| <= |stream| && (s.broken ==> |s.rest| >= 4)
    decreases |stream|
  {
    if |stream| < 4 then Stream([], stream, false)
    else
      var length := Number(stream[..4]);
      if !FrameLength(length) then Stream([], stream, true)
      else if |stream| < 4 + length then Stream([], stream, false)
      else Before([stream[4..4 + length]], Read(stream[4 + length..]))
  }

  function Before(frames: seq<seq<byte>>, s: Stream): Stream {
    Stream(frames + s.frames, s.rest, s.broken)
  }

  /** How far into the stream the impossible length ends. */
  function FailurePoint(stream: seq<byte>): nat
    requires Read(stream).broken
  {
    |stream| - |Read(stream).rest| + 4
  }

  lemma BeforeTwice(a: seq<seq<byte>>, b: seq<seq<byte>>, s: Stream)
    ensures Before(a, Before(b, s)) == Before(a + b, s) && Before([], s) == s
  {
    assert a + (b + s.frames) == (a + b) + s.frames;
    assert [] + s.frames == s.frames;
  }

  /** Reading may stop anywhere and go on with what was left. */
  lemma {:induction false} ReadSplits(a: seq<byte>, b: seq<byte>)
    ensures !Read(a).broken ==> Read(a + b) == Before(Read(a).frames, Read(Read(a).rest + b))
    ensures Read(a).broken ==> Read(a + b) == Stream(Read(a).frames, Read(a).rest + b, true)
    decreases |a|
  {
    hide Number;
    if |a| >= 4 {
      assert (a + b)[..4] == a[..4];
      var length := Number(a[..4]);
      if FrameLength(length) && |a| >= 4 + length {
        var tail := a[4 + length..];
        ReadSplits(tail, b);
        assert (a + b)[4 + length..] == tail + b;
        assert (a + b)[4..4 + length] == a[4..4 + length];
        BeforeTwice([a[4..4 + length]], Read(tail).frames, Read(Read(tail).rest + b));
      } else {
        BeforeTwice([], [], Read(a + b));
      }
    } else {
      BeforeTwice([], [], Read(a + b));
    }
  }

  /** What is left over reads as nothing more, and stays unbroken. */
  lemma {:induction false} RestIsUnfinished(stream: seq<byte>)
    requires !Read(stream).broken
    ensures Read(Read(stream).rest) == Stream([], Read(stream).rest, false)
    decreases |stream|
  {
    if |stream| >= 4 && |stream| >= 4 + Number(stream[..4]) && FrameLength(Number(stream[..4])) {
      RestIsUnfinished(stream[4 + Number(stream[..4])..]);
    }
  }

  /** More bytes never move the point of failure, nor bring it into what was already read. */
  lemma FailureStays(a: seq<byte>, b: seq<byte>)
    requires Read(a + b).broken
    ensures Read(a).broken ==> FailurePoint(a + b) == FailurePoint(a) <= |a|
    ensures !Read(a).broken ==> FailurePoint(a + b) > |a|
  {
    hide Number, FrameLength;
    ReadSplits(a, b);
    if !Read(a).broken {
      RestIsUnfinished(a);
      UnfinishedBreaksLater(Read(a).rest, b);
    }
  }

  lemma UnfinishedBreaksLater(rest: seq<byte>, b: seq<byte>)
    requires Read(rest) == Stream([], rest, false) && Read(rest + b).broken
    ensures |Read(rest + b).rest| < |b| + 4
  {
    hide Number;
    if |rest| >= 4 {
      assert (rest + b)[..4] == rest[..4];
    }
  }

  // ---------------------------------------------------------------- chunks

  function Joined(chunks: seq<seq<byte>>): seq<byte> {
    if chunks == [] then [] else Joined(chunks[..|chunks| - 1]) + chunks[|chunks| - 1]
  }

  /** What pushing the chunks one by one comes to; a failed push ends the connection. */
  function Fed(chunks: seq<seq<byte>>): Stream {
    if chunks == [] then Stream([], [], false)
    else
      var before := Fed(chunks[..|chunks| - 1]);
      if before.broken then before else Before(before.frames, Read(before.rest + chunks[|chunks| - 1]))
  }

  /** However a stream is cut into chunks, the same frames come out, the same bytes stay unfinished, and
      a failure comes in exactly the chunk that holds the end of the impossible length. */
  lemma {:induction false} ChunkingIrrelevant(chunks: seq<seq<byte>>)
    ensures Fed(chunks).frames == Read(Joined(chunks)).frames
    ensures Fed(chunks).broken == Read(Joined(chunks)).broken
    ensures !Fed(chunks).broken ==> Fed(chunks) == Read(Joined(chunks))
    ensures Fed(chunks).broken ==>
              forall k: nat ::
                k <= |chunks| ==> (Fed(chunks[..k]).broken <==> FailurePoint(Joined(chunks)) <= |Joined(chunks[..k])|)
    decreases |chunks|
  {
    hide Read;
    if chunks != [] {
      var earlier, last := chunks[..|chunks| - 1], chunks[|chunks| - 1];
      ChunkingIrrelevant(earlier);
      ReadSplits(Joined(earlier), last);
      if Fed(chunks).broken {
        forall k: nat | k <= |chunks|
          ensures Fed(chunks[..k]).broken <==> FailurePoint(Joined(chunks)) <= |Joined(chunks[..k])|
        {
          FailsInChunk(chunks, k);
        }
      }
    } else {
      NothingRead();
    }
  }

  lemma NothingRead()
    ensures Read([]) == Stream([], [], false)
  {
  }

  lemma {:induction false} JoinedSplits(chunks: seq<seq<byte>>, k: nat)
    requires k <= |chunks|
    ensures Joined(chunks[..k]) <= Joined(chunks)
    decreases |chunks|
  {
    if k == |chunks| {
      assert chunks[..k] == chunks;
    } else {
      var earlier := chunks[..|chunks| - 1];
      JoinedSplits(earlier, k);
      assert earlier[..k] == chunks[..k];
    }
  }

  lemma {:induction false} FedIsBroken(chunks: seq<seq<byte>>)
    ensures Fed(chunks).broken == Read(Joined(chunks)).broken
    ensures !Fed(chunks).broken ==> Fed(chunks) == Read(Joined(chunks))
    decreases |chunks|
  {
    hide Read;
    if chunks != [] {
      FedIsBroken(chunks[..|chunks| - 1]);
      ReadSplits(Joined(chunks[..|chunks| - 1]), chunks[|chunks| - 1]);
    } else {
      NothingRead();
    }
  }

  lemma FailsInChunk(chunks: seq<seq<byte>>, k: nat)
    requires k <= |chunks| && Read(Joined(chunks)).broken
    ensures Fed(chunks[..k]).broken <==> FailurePoint(Joined(chunks)) <= |Joined(chunks[..k])|
  {
    hide Read, Fed, Joined;
    JoinedSplits(chunks, k);
    var a, all := Joined(chunks[..k]), Joined(chunks);
    assert all == a + all[|a|..];
    FedIsBroken(chunks[..k]);
    FailureStays(a, all[|a|..]);
  }

  // ---------------------------------------------------------------- envelopes

  datatype Message = Message(opcode: byte, id: nat, body: seq<byte>)

  predicate Sendable(m: Message) {
    m.id < 0x1_0000_0000 && 5 + |m.body| <= MAX_FRAME
  }

  function Payload(m: Message): seq<byte> {
    [m.opcode] + Scalar(m.id, 4) + m.body
  }

  /** `envelope`, the same bytes from the broker and from the client. */
  function Envelope(m: Message): seq<byte> {
    Scalar(5 + |m.body|, 4) + Payload(m)
  }

  function Envelopes(messages: seq<Message>): seq<byte> {
    if messages == [] then [] else Envelope(messages[0]) + Envelopes(messages[1..])
  }

  /** The fields a receiver takes from a frame. */
  function Open(frame: seq<byte>): Message
    requires |frame| >= 5
  {
    Message(frame[0], Number(frame[1..5]), frame[5..])
  }

  lemma OpenPayload(m: Message)
    requires Sendable(m)
    ensures |Payload(m)| >= 5 && Open(Payload(m)) == m
  {
    hide Scalar, Number;
    LengthReads(m.id);
    assert Payload(m)[1..5] == Scalar(m.id, 4) && Payload(m)[5..] == m.body;
  }

  lemma LengthReads(n: nat)
    requires n < 0x1_0000_0000
    ensures |Scalar(n, 4)| == 4 && Number(Scalar(n, 4)) == n
  {
    Powers();
    NumberOfBigEndian(n, 4);
  }

  lemma ReadWhole(payload: seq<byte>, rest: seq<byte>)
    requires FrameLength(|payload|)
    ensures Read(Scalar(|payload|, 4) + payload + rest) == Before([payload], Read(rest))
  {
    hide Number, Scalar;
    var n := |payload|;
    LengthReads(n);
    var stream := Scalar(n, 4) + payload + rest;
    assert stream[..4] == Scalar(n, 4) && stream[4..4 + n] == payload && stream[4 + n..] == rest;
  }

  lemma ReadPart(length: nat, part: seq<byte>)
    requires FrameLength(length) && |part| < length
    ensures Read(Scalar(length, 4) + part) == Stream([], Scalar(length, 4) + part, false)
  {
    hide Number, Scalar;
    LengthReads(length);
    assert (Scalar(length, 4) + part)[..4] == Scalar(length, 4);
  }

  lemma ReadEnvelope(m: Message, rest: seq<byte>)
    requires Sendable(m)
    ensures Read(Envelope(m) + rest) == Before([Payload(m)], Read(rest))
  {
    hide Read, Scalar;
    ReadWhole(Payload(m), rest);
  }

  /** Any concatenation of envelopes comes apart into exactly the messages that went in. */
  lemma {:induction false} EnvelopesRoundTrip(messages: seq<Message>)
    requires forall i :: 0 <= i < |messages| ==> Sendable(messages[i])
    ensures var s := Read(Envelopes(messages));
            && !s.broken && s.rest == [] && |s.frames| == |messages|
            && forall i :: 0 <= i < |messages| ==> |s.frames[i]| >= 5 && Open(s.frames[i]) == messages[i]
  {
    hide Sendable, Envelope, Payload, Open, Read;
    if messages != [] {
      ReadEnvelope(messages[0], Envelopes(messages[1..]));
      OpenPayload(messages[0]);
      EnvelopesRoundTrip(messages[1..]);
      var s := Read(Envelopes(messages));
      assert forall i :: 1 <= i < |messages| ==> s.frames[i] == Read(Envelopes(messages[1..])).frames[i - 1];
    } else {
      NothingRead();
    }
  }

  // ---------------------------------------------------------------- the incremental decoder

  method Copy(source: seq<byte>, from: nat, count: nat, target: array<byte>, at: nat)
    requires from + count <= |source| && at + count <= target.Length
    modifies target
    ensures target[..] == old(target[..at]) + source[from..from + count] + old(target[at + count..])
  {
    forall i | 0 <= i < count {
      target[at + i] := source[from + i];
    }
  }

  lemma PrefixIsLength(b: seq<byte>)
    requires |b| == 4
    ensures Scalar(Number(b), 4) == b
  {
    hide Number, BigEndian, Power;
    Powers();
    BigEndianOfNumber(b);
    SmallMod(Number(b), Power(4));
  }

  /** `FrameDecoder`: four bytes of prefix, then one buffer per frame. `frames` is what the callback got. */
  class FrameDecoder {
    const prefix: array<byte>
    var prefixUsed: nat
    var frame: array?<byte>
    var frameUsed: nat
    var frames: seq<seq<byte>>

    ghost predicate Shaped()
      reads this, prefix, frame
    {
      && prefix.Length == 4 && prefixUsed <= 4
      && (frame != null ==>
            prefixUsed == 0 && frame != prefix && FrameLength(frame.Length) && frameUsed <= frame.Length)
    }

    /** The bytes taken in and not yet given out. */
    ghost function Held(): seq<byte>
      requires Shaped()
      reads this, prefix, frame
    {
      if frame != null then Scalar(frame.Length, 4) + frame[..frameUsed] else prefix[..prefixUsed]
    }

    /** Between pushes no complete frame is held. */
    ghost predicate Valid()
      reads this, prefix, frame
    {
      && Shaped() && (frame != null ==> frameUsed < frame.Length)
      && (frame == null && prefixUsed == 4 ==> !FrameLength(Number(prefix[..])))
    }

    /** An impossible length has come in; its four bytes stay in the prefix. */
    predicate Failed()
      reads this
    {
      frame == null && prefixUsed == 4
    }

    constructor ()
      ensures Valid() && !Failed() && Held() == [] && frames == []
      ensures fresh(prefix) && frame == null
    {
      prefix := new byte[4](_ => 0);
      prefixUsed, frame, frameUsed, frames := 0, null, 0, [];
    }

    lemma HeldIsUnfinished()
      requires Valid()
      ensures Read(Held()) == Stream([], Held(), Failed())
    {
      hide Number, Scalar;
      if frame != null {
        ReadPart(frame.Length, frame[..frameUsed]);
      } else if prefixUsed == 4 {
        assert Held()[..4] == prefix[..];
      }
    }

    lemma FourHeld()
      requires Shaped() && Failed()
      ensures |Held()| == 4
    {
    }

    /** The rest of the prefix, if the chunk holds it. */
    method TakePrefix(chunk: seq<byte>, offset: nat) returns (next: nat)
      requires Shaped() && frame == null && offset < |chunk|
      modifies this`prefixUsed, prefix
      ensures Shaped() && offset <= next <= |chunk| && Held() + chunk[next..] == old(Held()) + chunk[offset..]
      ensures prefixUsed == 4 || (next == |chunk| && next > offset)
      ensures old(prefixUsed) == 4 ==> prefix[..] == old(prefix[..])
    {
      var count := if 4 - prefixUsed < |chunk| - offset then 4 - prefixUsed else |chunk| - offset;
      Copy(chunk, offset, count, prefix, prefixUsed);
      assert prefix[..prefixUsed + count] == old(prefix[..prefixUsed]) + chunk[offset..offset + count];
      next := offset + count;
      prefixUsed := prefixUsed + count;
      assert chunk[offset..] == chunk[offset..next] + chunk[next..];
    }

    /** A complete prefix starts a frame or fails. */
    method StartFrame() returns (ok: bool)
      requires Shaped() && frame == null && prefixUsed == 4
      modifies this
      ensures Shaped() && Held() == old(Held()) && frames == old(frames)
      ensures ok ==> frame != null && fresh(frame) && frameUsed == 0
      ensures !ok ==> Valid() && Failed()
    {
      hide Number, Scalar;
      var length := Number(prefix[..]);
      if !FrameLength(length) {
        return false;
      }
      PrefixIsLength(prefix[..]);
      assert prefix[..prefixUsed] == prefix[..];
      frame := new byte[length](_ => 0);
      frameUsed, prefixUsed := 0, 0;
      assert Scalar(frame.Length, 4) + frame[..0] == Scalar(length, 4);
      ok := true;
    }

    /** As much of the frame as the chunk holds. */
    method TakeFrame(chunk: seq<byte>, offset: nat) returns (next: nat)
      requires Shaped() && frame != null && offset <= |chunk|
      modifies this`frameUsed, frame
      ensures Shaped() && offset <= next <= |chunk| && Held() + chunk[next..] == old(Held()) + chunk[offset..]
      ensures next == |chunk| || frameUsed == frame.Length
      ensures frameUsed == old(frameUsed) + (next - offset)
    {
      var count := if frame.Length - frameUsed < |chunk| - offset then frame.Length - frameUsed else |chunk| - offset;
      Copy(chunk, offset, count, frame, frameUsed);
      next := offset + count;
      assert frame[..frameUsed + count] == old(frame[..frameUsed]) + chunk[offset..next];
      frameUsed := frameUsed + count;
      assert chunk[offset..] == chunk[offset..next] + chunk[next..];
    }

    /** A complete frame is exactly the next one of the stream. */
    method Deliver(ghost later: seq<byte>)
      requires Shaped() && frame != null && frameUsed == frame.Length
      modifies this
      ensures Valid() && Held() == [] && frame == null && prefixUsed == 0
      ensures |frames| == |old(frames)| + 1 && old(frames) <= frames
      ensures Read(old(Held()) + later) == Before([frames[|frames| - 1]], Read(later))
    {
      hide Read, Scalar;
      ReadWhole(frame[..], later);
      assert frame[..frameUsed] == frame[..];
      frames := frames + [frame[..]];
      frame, frameUsed := null, 0;
    }

    /** One chunk from the socket: the decoder gives out and keeps exactly what a one-shot reading of the
        held bytes and the chunk would, and stops at the same byte. */
    method Push(chunk: seq<byte>) returns (ok: bool, ghost offset: nat)
      requires Valid() && !Failed()
      modifies this, prefix, frame
      ensures Valid() && ok == !Failed() && (frame != old(frame) && frame != null ==> fresh(frame))
      ensures var s := Read(old(Held()) + chunk);
              && frames == old(frames) + s.frames && ok == !s.broken
              && (ok ==> Held() == s.rest && offset == |chunk|)
              && (!ok ==> Held() == s.rest[..4] && |old(Held())| + offset == FailurePoint(old(Held()) + chunk))
    {
      hide Read, Number, Scalar, Held;
      var at := 0;
      ghost var stream := Held() + chunk;
      ghost var read: seq<seq<byte>> := [];
      assert chunk[0..] == chunk;
      BeforeTwice([], [], Read(stream));
      while at < |chunk|
        invariant at <= |chunk| && Valid() && (frame != old(frame) && frame != null ==> fresh(frame))
        invariant Held() + chunk[at..] == stream && frames == old(frames) + read
        invariant Read(old(Held()) + chunk) == Before(read, Read(stream))
        invariant !Failed()
        decreases |chunk| - at
      {
        if frame == null {
          at := TakePrefix(chunk, at);
          if prefixUsed != 4 {
            continue;
          }
          var valid := StartFrame();
          if !valid {
            HeldIsUnfinished();
            FourHeld();
            ReadSplits(Held(), chunk[at..]);
            assert Held() == stream[..4];
            return false, at;
          }
        }
        at := TakeFrame(chunk, at);
        if frameUsed == frame.Length {
          Deliver(chunk[at..]);
          read := read + [frames[|frames| - 1]];
          stream := chunk[at..];
          BeforeTwice(read[..|read| - 1], [frames[|frames| - 1]], Read(stream));
        }
      }
      HeldIsUnfinished();
      assert chunk[at..] == [] && Held() == stream;
      assert read + [] == read;
      ok, offset := true, |chunk|;
    }
  }
}
