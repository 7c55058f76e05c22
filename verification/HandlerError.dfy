/** How the client turns a handler's error message into at most 4096 bytes of UTF-8 the broker accepts. */
module HandlerError {
  import opened Basics
  import opened Utf8
  import opened Protocol
  import opened Requests

  /** A UTF-16 code unit, as the strings of the client hold them. */
  type unit = x: nat | x < 0x1_0000

  predicate High(u: unit) {
    0xD800 <= u < 0xDC00
  }

  predicate Low(u: unit) {
    0xDC00 <= u < 0xE000
  }

  function Tail(code: nat, shift: nat): byte
    requires shift > 0
  {
    0x80 + code / shift % 64
  }

  /** The UTF-8 bytes of one code point, section 3 of RFC 3629. */
  function Encoded(code: nat): seq<byte>
    requires code < 0x11_0000
  {
    if code < 0x80 then [code]
    else if code < 0x800 then [0xC0 + code / 64, Tail(code, 1)]
    else if code < 0x1_0000 then [0xE0 + code / 4096, Tail(code, 64), Tail(code, 1)]
    else [0xF0 + code / 0x4_0000, Tail(code, 4096), Tail(code, 64), Tail(code, 1)]
  }

  /** The code point of a surrogate pair. */
  function Paired(high: unit, low: unit): (code: nat)
    requires High(high) && Low(low)
    ensures 0x1_0000 <= code < 0x11_0000
  {
    var h: int, l: int := high - 0xD800, low - 0xDC00;
    0x1_0000 + h * 0x400 + l
  }

  /** Encoding a string: a surrogate without its partner becomes the replacement character. */
  function Encode(s: seq<unit>): seq<byte> {
    if s == [] then []
    else if |s| >= 2 && High(s[0]) && Low(s[1]) then
      Encoded(Paired(s[0], s[1])) + Encode(s[2..])
    else if High(s[0]) || Low(s[0]) then Encoded(0xFFFD) + Encode(s[1..])
    else Encoded(s[0]) + Encode(s[1..])
  }

  lemma EncodedIsValid(code: nat)
    requires code < 0x11_0000 && !(0xD800 <= code < 0xE000)
    ensures ValidUtf8(Encoded(code))
  {
    hide ValidUtf8;
    var b := Encoded(code);
    assert SequenceLength(b) == |b|;
    assert b[|b|..] == [];
    OneSequence(b);
  }

  lemma OneSequence(b: seq<byte>)
    requires b != [] && SequenceLength(b) == |b|
    ensures ValidUtf8(b)
  {
    assert b[|b|..] == [];
  }

  lemma {:induction false} EncodeIsValid(s: seq<unit>)
    ensures ValidUtf8(Encode(s))
  {
    hide ValidUtf8, Encoded;
    if s == [] {
      NothingIsValid();
    } else if |s| >= 2 && High(s[0]) && Low(s[1]) {
      var code := Paired(s[0], s[1]);
      EncodedIsValid(code);
      EncodeIsValid(s[2..]);
      ValidConcat(Encoded(code), Encode(s[2..]));
    } else {
      var code: nat := if High(s[0]) || Low(s[0]) then 0xFFFD else s[0];
      EncodedIsValid(code);
      EncodeIsValid(s[1..]);
      ValidConcat(Encoded(code), Encode(s[1..]));
    }
  }

  lemma NothingIsValid()
    ensures ValidUtf8([])
  {
  }

  // ---------------------------------------------------------------- where valid UTF-8 may be cut

  lemma LeadAndTails(s: seq<byte>)
    requires SequenceLength(s) > 0
    ensures !Continuation(s[0]) && forall i :: 1 <= i < SequenceLength(s) ==> Continuation(s[i])
    ensures forall k :: 0 <= k < SequenceLength(s) ==> SequenceLength(s[..k]) == 0
    ensures forall k :: SequenceLength(s) <= k <= |s| ==> SequenceLength(s[..k]) == SequenceLength(s)
  {
  }

  /** Valid UTF-8 stays valid when cut before a byte exactly when that byte is no continuation byte. */
  lemma {:induction false} CutIsValid(s: seq<byte>, k: nat)
    requires ValidUtf8(s) && k < |s|
    ensures ValidUtf8(s[..k]) <==> !Continuation(s[k])
    decreases |s|
  {
    hide SequenceLength, Continuation;
    var n := SequenceLength(s);
    LeadAndTails(s);
    if n <= k {
      CutIsValid(s[n..], k - n);
      assert s[..k][n..] == s[n..][..k - n];
    }
  }

  /** Among any four bytes in a row, one starts a sequence. */
  lemma {:induction false} LeadNearby(s: seq<byte>, k: nat) returns (j: nat)
    requires ValidUtf8(s) && k < |s|
    ensures k - 3 <= j <= k && !Continuation(s[j])
    decreases |s|
  {
    hide Continuation;
    var n := SequenceLength(s);
    LeadAndTails(s);
    if n <= k {
      j := LeadNearby(s[n..], k - n);
      j := j + n;
    } else {
      j := 0;
    }
  }

  // ---------------------------------------------------------------- the truncation

  function Sliced(message: seq<unit>): seq<unit> {
    if |message| <= MAX_ERROR then message else message[..MAX_ERROR]
  }

  /** `handlerErrorBytes`: all of the encoding when it fits, and otherwise its longest valid prefix of at
      most 4096 bytes, which falls short of that by at most three. */
  method HandlerErrorBytes(message: seq<unit>) returns (r: seq<byte>)
    ensures ValidUtf8(r) && |r| <= MAX_ERROR
    ensures var bytes := Encode(Sliced(message));
            && r <= bytes
            && (|bytes| <= MAX_ERROR ==> r == bytes)
            && (|bytes| > MAX_ERROR ==> |r| >= MAX_ERROR - 3)
            && (forall k :: |r| < k <= MAX_ERROR && k <= |bytes| ==> !ValidUtf8(bytes[..k]))
  {
    hide ValidUtf8, Continuation, Encode;
    var bytes := Encode(Sliced(message));
    EncodeIsValid(Sliced(message));
    if |bytes| <= MAX_ERROR {
      return bytes;
    }
    var end := MAX_ERROR;
    ghost var lead := LeadNearby(bytes, MAX_ERROR);
    while Continuation(bytes[end])
      invariant lead <= end <= MAX_ERROR
      invariant forall k :: end < k <= MAX_ERROR ==> Continuation(bytes[k])
      decreases end
    {
      end := end - 1;
    }
    forall k | end <= k <= MAX_ERROR ensures ValidUtf8(bytes[..k]) <==> !Continuation(bytes[k]) {
      CutIsValid(bytes, k);
    }
    r := bytes[..end];
  }

  /** The broker's decoder takes the completion that carries any message's error bytes. */
  method CompletionBody(callId: nat, message: seq<unit>) returns (body: seq<byte>)
    requires callId <= MAX_U64
    ensures var r := Decode(9, body);
            r.Ok? && r.value.Complete? && r.value.callId == callId && r.value.failed
            && r.value.payload <= Encode(Sliced(message))
  {
    hide ValidUtf8, Decode, EncodeBody, Encode;
    var bytes := HandlerErrorBytes(message);
    var r := Complete(callId, true, bytes);
    body := EncodeBody(r);
    RequestCodec(9, body, r);
  }
}
