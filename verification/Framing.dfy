/**
 The wire format of a TCP market-event feed, without sockets or buffers.

 `Read` says what one frame read answers when the bytes still to come on a connection are `s`;
 `Items` is the chunk-free parse of a whole connection. The buffered reader in `Transport`
 is proved against these functions.
 */
module Framing {
  type Byte = b: int | 0 <= b < 256
  type Bytes = seq<Byte>

  const NEWLINE: Byte := 10
  const UINT32_LIMIT: int := 0x1_0000_0000

  datatype Mode = Newline | LengthPrefixed

  datatype FrameError = EmptyFrame | OversizedFrame

  /** The answer of one frame read and the bytes left for the next one. */
  datatype ReadResult =
    | Frame(payload: Bytes, rest: Bytes)
    | Refused(error: FrameError, rest: Bytes)
    | Closed

  /** What a connection yields to its reader, one entry per answered read. */
  datatype Item = Payload(payload: Bytes) | Rejection(error: FrameError)

  // ---------------------------------------------------------------- helpers

  predicate IsSpace(b: Byte) {
    b == 32 || 9 <= b <= 13
  }

  /** `not frame.strip()` on bytes. */
  predicate IsBlank(frame: Bytes) {
    forall i :: 0 <= i < |frame| ==> IsSpace(frame[i])
  }

  /** `bytes.find(b"\n")`: the first index, or -1. */
  function FindNewline(s: Bytes): (d: int)
    ensures -1 <= d < |s|
    ensures d >= 0 ==> s[d] == NEWLINE
    ensures forall i :: 0 <= i < (if d < 0 then |s| else d) ==> s[i] != NEWLINE
  {
    if s == [] then -1
    else if s[0] == NEWLINE then 0
    else
      var d := FindNewline(s[1..]);
      assert forall i :: 1 <= i < |s| ==> s[i] == s[1..][i - 1];
      if d < 0 then -1 else d + 1
  }

  /** `struct.unpack("!I", ...)`: network byte order, Appendix B of RFC 791. */
  function BigEndian(header: Bytes): (n: nat)
    requires |header| == 4
    ensures n < UINT32_LIMIT
  {
    header[0] as int * 0x100_0000 + header[1] as int * 0x1_0000 + header[2] as int * 0x100 + header[3] as int
  }

  /** `struct.pack("!I", n)`. */
  function PackLength(n: nat): (header: Bytes)
    requires n < UINT32_LIMIT
    ensures |header| == 4
  {
    [n / 0x100_0000, n / 0x1_0000 % 0x100, n / 0x100 % 0x100, n % 0x100]
  }

  /** The number whose digits to base 256 these are, most significant first. */
  function Positional(digits: Bytes): nat {
    if digits == [] then 0 else 256 * Positional(digits[..|digits| - 1]) + digits[|digits| - 1] as int
  }

  /** Network byte order: the header is the length to base 256, most significant byte first. */
  lemma HeaderIsPositional(header: Bytes, n: nat)
    requires |header| == 4 && n < UINT32_LIMIT
    ensures BigEndian(header) == Positional(header)
    ensures header == PackLength(n) <==> Positional(header) == n
  {
    var a, b, c := header[..3], header[..2], header[..1];
    assert a[..2] == b && b[..1] == c && c[..0] == [];
    assert Positional(c) == header[0] as int && Positional(b) == 256 * Positional(c) + header[1] as int;
    assert Positional(a) == 256 * Positional(b) + header[2] as int;
    assert Positional(header) == 256 * Positional(a) + header[3] as int;
    LengthRoundTrip(n);
    HeaderRoundTrip(header);
  }

  lemma LengthRoundTrip(n: nat)
    requires n < UINT32_LIMIT
    ensures BigEndian(PackLength(n)) == n
  {
    var a, b := n / 0x100, n / 0x1_0000;
    assert n == a * 0x100 + n % 0x100;
    assert a / 0x100 == b && b / 0x100 == n / 0x100_0000;
  }

  lemma HeaderRoundTrip(header: Bytes)
    requires |header| == 4
    ensures PackLength(BigEndian(header)) == header
  {
    var h0: int, h1: int, h2: int, h3: int := header[0], header[1], header[2], header[3];
    var n, a, b := BigEndian(header), h0 * 0x1_0000 + h1 * 0x100 + h2, h0 * 0x100 + h1;
    assert n == a * 0x100 + h3 && n / 0x100 == a && n % 0x100 == h3;
    assert a == b * 0x100 + h2 && a / 0x100 == b && a % 0x100 == h2;
    assert n / 0x1_0000 == b && b / 0x100 == h0 && b % 0x100 == h1;
    assert n / 0x100_0000 == h0;
  }

  // ---------------------------------------------------------------- reading

  function ReadNewline(max: nat, s: Bytes): ReadResult {
    var d := FindNewline(s);
    if 0 <= d <= max then
      if IsBlank(s[..d]) then Refused(EmptyFrame, s[d + 1..]) else Frame(s[..d], s[d + 1..])
    else if |s| > max then Refused(OversizedFrame, s)
    else Closed
  }

  function ReadLengthPrefixed(max: nat, s: Bytes): ReadResult {
    if |s| < 4 then Closed
    else
      var n, body := BigEndian(s[..4]), s[4..];
      if n == 0 then Refused(EmptyFrame, body)
      else if n > max then Refused(OversizedFrame, body)
      else if |body| < n then Closed
      else Frame(body[..n], body[n..])
  }

  function Read(mode: Mode, max: nat, s: Bytes): ReadResult {
    if mode.Newline? then ReadNewline(max, s) else ReadLengthPrefixed(max, s)
  }

  /** The connection ends without an answer exactly when its bytes end within a frame that may still be fine. */
  lemma ClosedIff(mode: Mode, max: nat, s: Bytes)
    ensures mode.Newline? ==> (Read(mode, max, s).Closed? <==> |s| <= max && NEWLINE !in s)
    ensures mode.LengthPrefixed? ==>
              (Read(mode, max, s).Closed? <==>
                 |s| < 4 || (0 < Positional(s[..4]) <= max && |s| < 4 + Positional(s[..4])))
  {
    if mode.LengthPrefixed? && |s| >= 4 {
      HeaderIsPositional(s[..4], 0);
    }
  }

  /** The reader is stuck: it refuses, and refuses again at the same place. */
  predicate Stuck(mode: Mode, max: nat, s: Bytes) {
    Read(mode, max, s) == Refused(OversizedFrame, s)
  }

  /** Everything a reader gets out of a connection that carries exactly `s`. */
  function Items(mode: Mode, max: nat, s: Bytes): seq<Item>
    decreases |s|
  {
    match Read(mode, max, s)
    case Closed => []
    case Frame(p, rest) => [Payload(p)] + Items(mode, max, rest)
    case Refused(e, rest) =>
      [Rejection(e)] + (if |rest| < |s| then Items(mode, max, rest) else [])
  }

  /** A reader stands still only on an oversized newline frame; every other answer consumes bytes. */
  lemma StandsStillOnlyWhenStuck(mode: Mode, max: nat, s: Bytes)
    requires !Read(mode, max, s).Closed?
    ensures |Read(mode, max, s).rest| < |s| || (mode.Newline? && Stuck(mode, max, s))
    ensures Stuck(mode, max, s) <==>
            mode.Newline? && |s| > max && forall i :: 0 <= i <= max ==> s[i] != NEWLINE
  {
  }

  /** The same answer, with more bytes left over. */
  function Extend(r: ReadResult, more: Bytes): ReadResult
    requires !r.Closed?
  {
    match r
    case Frame(p, rest) => Frame(p, rest + more)
    case Refused(e, rest) => Refused(e, rest + more)
  }

  lemma NewlineAnswerIsStable(max: nat, s: Bytes, more: Bytes)
    requires !ReadNewline(max, s).Closed?
    ensures ReadNewline(max, s + more) == Extend(ReadNewline(max, s), more)
  {
    var t, d, e := s + more, FindNewline(s), FindNewline(s + more);
    assert forall i :: 0 <= i < |s| ==> t[i] == s[i];
    if d >= 0 {
      assert e == d;
      assert t[..d] == s[..d] && t[d + 1..] == s[d + 1..] + more;
    }
  }

  lemma LengthAnswerIsStable(max: nat, s: Bytes, more: Bytes)
    requires !ReadLengthPrefixed(max, s).Closed?
    ensures ReadLengthPrefixed(max, s + more) == Extend(ReadLengthPrefixed(max, s), more)
  {
    var t, n, body := s + more, BigEndian(s[..4]), s[4..];
    assert t[..4] == s[..4] && t[4..] == body + more;
    if n <= |body| {
      assert (body + more)[..n] == body[..n] && (body + more)[n..] == body[n..] + more;
    }
  }

  /** Bytes that arrive later never change an answer that could already be given. */
  lemma AnswerIsStable(mode: Mode, max: nat, s: Bytes, more: Bytes)
    requires !Read(mode, max, s).Closed?
    ensures Read(mode, max, s + more) == Extend(Read(mode, max, s), more)
  {
    if mode.Newline? {
      NewlineAnswerIsStable(max, s, more);
    } else {
      LengthAnswerIsStable(max, s, more);
    }
  }

  // --------------------------------------------------------------- encoding

  /** What `event_frame` can put on the wire: a 32-bit length, or any payload before a newline. */
  predicate Encodable(mode: Mode, payload: Bytes) {
    mode.LengthPrefixed? ==> |payload| < UINT32_LIMIT
  }

  function Encode(mode: Mode, payload: Bytes): Bytes
    requires Encodable(mode, payload)
  {
    match mode
    case Newline => payload + [NEWLINE]
    case LengthPrefixed => PackLength(|payload|) + payload
  }

  function EncodeAll(mode: Mode, payloads: seq<Bytes>): Bytes
    requires forall i :: 0 <= i < |payloads| ==> Encodable(mode, payloads[i])
  {
    if payloads == [] then [] else Encode(mode, payloads[0]) + EncodeAll(mode, payloads[1..])
  }

  /** The payloads that survive the trip. */
  predicate Deliverable(mode: Mode, max: nat, payload: Bytes) {
    && |payload| <= max
    && match mode
       case Newline => NEWLINE !in payload && !IsBlank(payload)
       case LengthPrefixed => payload != []
  }

  /** Reading undoes encoding, for exactly the deliverable payloads and whatever follows. */
  lemma ReadUndoesEncode(mode: Mode, max: nat, payload: Bytes, tail: Bytes)
    requires Encodable(mode, payload)
    ensures Read(mode, max, Encode(mode, payload) + tail) == Frame(payload, tail)
            <==> Deliverable(mode, max, payload)
  {
    if mode.Newline? {
      NewlineUndoesEncode(max, payload, tail);
    } else {
      LengthUndoesEncode(max, payload, tail);
    }
  }

  lemma NewlineUndoesEncode(max: nat, payload: Bytes, tail: Bytes)
    ensures ReadNewline(max, payload + [NEWLINE] + tail) == Frame(payload, tail) <==> Deliverable(Newline, max, payload)
  {
    var n, s := |payload|, payload + [NEWLINE] + tail;
    var d := FindNewline(s);
    assert s[..n] == payload && s[n] == NEWLINE && s[n + 1..] == tail;
    assert forall i :: 0 <= i < n ==> s[i] == payload[i];
    assert d == n <==> NEWLINE !in payload;
  }

  lemma LengthUndoesEncode(max: nat, payload: Bytes, tail: Bytes)
    requires |payload| < UINT32_LIMIT
    ensures ReadLengthPrefixed(max, PackLength(|payload|) + payload + tail) == Frame(payload, tail)
            <==> Deliverable(LengthPrefixed, max, payload)
  {
    var n, s := |payload|, PackLength(|payload|) + payload + tail;
    LengthRoundTrip(n);
    assert s[..4] == PackLength(n) && s[4..] == payload + tail;
    assert (payload + tail)[..n] == payload && (payload + tail)[n..] == tail;
  }

  /** Encoding undoes reading: a frame that was read is what stood on the wire. */
  lemma EncodeUndoesRead(mode: Mode, max: nat, s: Bytes)
    requires Read(mode, max, s).Frame?
    ensures var Frame(p, rest) := Read(mode, max, s);
            Deliverable(mode, max, p) && Encodable(mode, p) && Encode(mode, p) + rest == s
  {
    if mode.LengthPrefixed? {
      HeaderRoundTrip(s[..4]);
    }
  }

  /** A frame within the limit: the reader answers it and goes on behind it. */
  predicate Regular(mode: Mode, max: nat, payload: Bytes) {
    Encodable(mode, payload) && |payload| <= max && (mode.Newline? ==> NEWLINE !in payload)
  }

  /** The regular payloads that are refused as empty. */
  predicate Blank(mode: Mode, payload: Bytes) {
    match mode
    case Newline => IsBlank(payload)
    case LengthPrefixed => payload == []
  }

  /** White space by code: tab, the line and page breaks, and the space. */
  lemma BlankIff(mode: Mode, payload: Bytes)
    ensures mode.Newline? ==>
              (Blank(mode, payload) <==>
                 forall i :: 0 <= i < |payload| ==> payload[i] as int in {9, 10, 11, 12, 13, 32})
    ensures mode.LengthPrefixed? ==> (Blank(mode, payload) <==> |payload| == 0)
  {
  }

  function AnswerTo(mode: Mode, payload: Bytes): Item {
    if Blank(mode, payload) then Rejection(EmptyFrame) else Payload(payload)
  }

  function ReadAs(item: Item, rest: Bytes): ReadResult {
    match item
    case Payload(p) => Frame(p, rest)
    case Rejection(e) => Refused(e, rest)
  }

  function AnswersTo(mode: Mode, payloads: seq<Bytes>): seq<Item> {
    seq(|payloads|, i requires 0 <= i < |payloads| => AnswerTo(mode, payloads[i]))
  }

  lemma AnswersCons(mode: Mode, payloads: seq<Bytes>)
    requires payloads != []
    ensures AnswersTo(mode, payloads) == [AnswerTo(mode, payloads[0])] + AnswersTo(mode, payloads[1..])
  {
  }

  predicate AllRegular(mode: Mode, max: nat, payloads: seq<Bytes>) {
    forall i :: 0 <= i < |payloads| ==> Regular(mode, max, payloads[i])
  }

  lemma RegularFrameIsAnswered(mode: Mode, max: nat, payload: Bytes, tail: Bytes)
    requires Regular(mode, max, payload)
    ensures Read(mode, max, Encode(mode, payload) + tail) == ReadAs(AnswerTo(mode, payload), tail)
  {
    ReadUndoesEncode(mode, max, payload, tail);
    if Blank(mode, payload) {
      var n, s := |payload|, Encode(mode, payload) + tail;
      if mode.Newline? {
        assert s[..n] == payload && s[n] == NEWLINE && s[n + 1..] == tail;
        assert forall i :: 0 <= i < n ==> s[i] == payload[i];
        assert FindNewline(s) == n;
      } else {
        LengthRoundTrip(n);
        assert s[..4] == PackLength(n) && s[4..] == tail;
      }
    }
  }

  lemma ItemThenRest(mode: Mode, max: nat, s: Bytes, item: Item, rest: Bytes)
    requires |rest| < |s| && Read(mode, max, s) == ReadAs(item, rest)
    ensures Items(mode, max, s) == [item] + Items(mode, max, rest)
  {
  }

  lemma EncodedHead(mode: Mode, payloads: seq<Bytes>, tail: Bytes)
    requires payloads != [] && forall i :: 0 <= i < |payloads| ==> Encodable(mode, payloads[i])
    ensures EncodeAll(mode, payloads) + tail == Encode(mode, payloads[0]) + (EncodeAll(mode, payloads[1..]) + tail)
  {
  }

  lemma FrameThenItems(mode: Mode, max: nat, payload: Bytes, rest: Bytes)
    requires Regular(mode, max, payload)
    ensures Items(mode, max, Encode(mode, payload) + rest) == [AnswerTo(mode, payload)] + Items(mode, max, rest)
  {
    RegularFrameIsAnswered(mode, max, payload, rest);
    assert |Encode(mode, payload)| > 0;
    ItemThenRest(mode, max, Encode(mode, payload) + rest, AnswerTo(mode, payload), rest);
  }

  lemma EncodedHeadParses(mode: Mode, max: nat, payloads: seq<Bytes>, tail: Bytes)
    requires payloads != [] && AllRegular(mode, max, payloads)
    ensures Items(mode, max, EncodeAll(mode, payloads) + tail)
            == [AnswerTo(mode, payloads[0])] + Items(mode, max, EncodeAll(mode, payloads[1..]) + tail)
  {
    var rest := EncodeAll(mode, payloads[1..]) + tail;
    EncodedHead(mode, payloads, tail);
    FrameThenItems(mode, max, payloads[0], rest);
  }

  lemma ConsConcat<T>(x: T, a: seq<T>, b: seq<T>)
    ensures [x] + (a + b) == ([x] + a) + b
  {
  }

  /** Any number of regular frames, back to back, are answered one by one, in order. */
  lemma {:induction false} EncodedStreamParses(mode: Mode, max: nat, payloads: seq<Bytes>, tail: Bytes)
    requires AllRegular(mode, max, payloads)
    ensures Items(mode, max, EncodeAll(mode, payloads) + tail) == AnswersTo(mode, payloads) + Items(mode, max, tail)
  {
    if payloads == [] {
      assert EncodeAll(mode, payloads) + tail == tail;
    } else {
      EncodedHeadParses(mode, max, payloads, tail);
      EncodedStreamParses(mode, max, payloads[1..], tail);
      AnswersCons(mode, payloads);
      ConsConcat(AnswerTo(mode, payloads[0]), AnswersTo(mode, payloads[1..]), Items(mode, max, tail));
    }
  }

  /**
   After one frame has been answered, delivered or refused, the next read starts at the next
   frame exactly when the payload was within the limit. An oversized newline frame is never
   left, and after an oversized length the reader goes on inside the refused payload.
   */
  lemma ResumesAtBoundaryIff(mode: Mode, max: nat, payload: Bytes, tail: Bytes)
    requires Encodable(mode, payload) && (mode.Newline? ==> NEWLINE !in payload)
    ensures var r := Read(mode, max, Encode(mode, payload) + tail);
            !r.Closed? && (r.rest == tail <==> |payload| <= max)
    ensures |payload| > max ==>
            Read(mode, max, Encode(mode, payload) + tail)
            == Refused(OversizedFrame, if mode.Newline? then Encode(mode, payload) + tail else payload + tail)
  {
    var n, s := |payload|, Encode(mode, payload) + tail;
    if mode.Newline? {
      assert s[..n] == payload && s[n] == NEWLINE && s[n + 1..] == tail;
      assert forall i :: 0 <= i < n ==> s[i] == payload[i];
      assert FindNewline(s) == n;
    } else {
      LengthRoundTrip(n);
      assert s[..4] == PackLength(n) && s[4..] == payload + tail;
      assert (payload + tail)[..n] == payload && (payload + tail)[n..] == tail;
      if n > max {
        assert |payload + tail| > |tail|;
      }
    }
  }

  /** An oversized length-prefixed payload can therefore surface as a frame nobody sent. */
  lemma OversizedPayloadIsReparsed()
    ensures var sent: Bytes := Encode(LengthPrefixed, [0, 0, 0, 1, 7]);
            Items(LengthPrefixed, 4, sent) == [Rejection(OversizedFrame), Payload([7])]
  {
    var inner: Bytes := [0, 0, 0, 1, 7];
    var sent: Bytes := Encode(LengthPrefixed, inner);
    assert sent == [0, 0, 0, 5, 0, 0, 0, 1, 7];
    assert sent[..4] == [0, 0, 0, 5] && sent[4..] == inner;
    assert Read(LengthPrefixed, 4, sent) == Refused(OversizedFrame, inner);
    assert inner[..4] == [0, 0, 0, 1] && inner[4..] == [7];
    assert Read(LengthPrefixed, 4, inner) == Frame([7], []);
    assert Items(LengthPrefixed, 4, []) == [];
  }
}
