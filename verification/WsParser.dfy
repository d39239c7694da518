/** The frame parser of websocket.zig: WebSocketState.process_data, byte by byte, on values. */
module WsParsing {
  import opened Options
  import opened Bytes
  import opened Framing

  datatype Step = StepStart | StepLength | StepShortLength | StepExtendedLength | StepKey | StepData

  /** The fields of WebSocketState that the parser uses: frame.length, frame.header,
      frame.length_pos, cipher.key, cipher.pos, data_inkey, masking and buffer. */
  datatype Parser = Parser(
    step: Step, length: nat, header: byte, lengthPos: nat,
    key: Key, pos: nat, inKey: nat, masking: bool, buffer: seq<byte>)

  const NEW_PARSER := Parser(StepStart, 0, 0, 0, ZERO_KEY, 0, 0, false, [])

  /** What end_message is called with. */
  datatype Message = Message(head: byte, payload: seq<byte>)

  /** Bytes read low one first. */
  function FromLittle(bs: seq<byte>): nat {
    if bs == [] then 0 else bs[0] + 256 * FromLittle(bs[1..])
  }

  function LittleEndian(n: nat, k: nat): (r: seq<byte>)
    ensures |r| == k
  {
    if k == 0 then [] else [n % 256] + LittleEndian(n / 256, k - 1)
  }

  /** @byteSwap of a k-byte number */
  function ByteSwap(n: nat, k: nat): (r: nat)
    ensures r < Pow256(k)
  {
    FromBigExact(LittleEndian(n, k));
    FromBig(LittleEndian(n, k))
  }

  lemma {:induction false} FromLittleSnoc(bs: seq<byte>, b: byte)
    ensures FromLittle(bs + [b]) == FromLittle(bs) + b * Pow256(|bs|)
    ensures FromLittle(bs) < Pow256(|bs|)
  {
    if bs == [] {
      assert FromLittle([b]) == b + 256 * FromLittle([]);
    } else {
      assert (bs + [b])[1..] == bs[1..] + [b];
      FromLittleSnoc(bs[1..], b);
      assert b * (256 * Pow256(|bs| - 1)) == 256 * (b * Pow256(|bs| - 1));
    }
  }

  lemma LowByte(b: byte, n: nat)
    ensures (b + 256 * n) % 256 == b && (b + 256 * n) / 256 == n
  {
  }

  lemma {:induction false} LittleEndianExact(bs: seq<byte>)
    ensures LittleEndian(FromLittle(bs), |bs|) == bs
  {
    if bs != [] {
      LittleEndianExact(bs[1..]);
      LowByte(bs[0], FromLittle(bs[1..]));
      assert bs == [bs[0]] + bs[1..];
    }
  }

  /** Bitwise or. */
  function OrBits(a: nat, b: nat): nat {
    if a == 0 && b == 0 then 0 else (if a % 2 == 1 || b % 2 == 1 then 1 else 0) + 2 * OrBits(a / 2, b / 2)
  }

  lemma {:induction false} OrNone(b: nat)
    ensures OrBits(0, b) == b
  {
    if b > 0 {
      OrNone(b / 2);
    }
  }

  /** A number that is shifted to the left meets only zero bits. */
  lemma {:induction false} OrShifted(a: nat, b: nat, n: nat)
    requires a < Pow2(n)
    ensures OrBits(a, b * Pow2(n)) == a + b * Pow2(n)
    decreases n
  {
    if n == 0 {
      OrNone(b);
    } else {
      var c := b * Pow2(n - 1);
      assert b * Pow2(n) == 2 * c;
      OrShifted(a / 2, b, n - 1);
      if a == 0 && c == 0 {
        assert OrBits(0, 0) == 0;
      } else {
        assert 2 * c / 2 == c && 2 * c % 2 == 0;
      }
    }
  }

  lemma {:induction false} PowBits(k: nat)
    ensures Pow256(k) == Pow2(8 * k)
  {
    if k > 0 {
      PowBits(k - 1);
      Octet(8 * (k - 1));
    }
  }

  lemma Octet(n: nat)
    ensures Pow2(n + 8) == 256 * Pow2(n)
  {
    assert Pow2(n + 2) == 2 * Pow2(n + 1) == 4 * Pow2(n);
    assert Pow2(n + 4) == 2 * Pow2(n + 3) == 4 * Pow2(n + 2);
    assert Pow2(n + 6) == 2 * Pow2(n + 5) == 4 * Pow2(n + 4);
    assert Pow2(n + 8) == 2 * Pow2(n + 7) == 4 * Pow2(n + 6);
  }

  /** The length bytes are collected low one first with shifts and bitwise or, and swapped at the end. */
  lemma OrIsPlus(length: nat, b: byte, pos: nat)
    requires length < Pow256(pos)
    ensures OrBits(length, b * Pow256(pos)) == length + b * Pow256(pos)
  {
    PowBits(pos);
    OrShifted(length, b, 8 * pos);
  }

  /** What holds of the parser between two bytes, whatever they are: the index computations stay in
      the ranges of their types and fewer bytes than expected have been collected. */
  predicate Safe(p: Parser) {
    && p.pos < 4 && p.inKey < 4
    && match p.step
       case StepStart => true
       case StepLength => p.length == 0 && p.lengthPos == 0 && Unread(p)
       case StepShortLength => p.lengthPos < 2 && p.length < Pow256(p.lengthPos) && p.masking && Unread(p)
       case StepExtendedLength => p.lengthPos < 8 && p.length < Pow256(p.lengthPos) && p.masking && Unread(p)
       case StepKey => p.length < Pow256(8) && p.masking && p.buffer == [] && p.inKey == 0
       case StepData => |p.buffer| < p.length < Pow256(8) && p.inKey == |p.buffer| % 4
  }

  predicate Unread(p: Parser) {
    p.pos == 0 && p.inKey == 0 && p.buffer == []
  }

  /** end_message and reset_state */
  function End(p: Parser): (Parser, Option<Message>) {
    (p.(step := StepStart), Some(Message(p.header, p.buffer)))
  }

  function FeedStart(p: Parser, b: byte): Parser {
    p.(header := b, step := StepLength, inKey := 0, pos := 0, lengthPos := 0, length := 0, buffer := [])
  }

  function FeedSecond(p: Parser, b: byte): (Parser, Option<Message>) {
    var masking := b >= 128;
    var q := match FormOf(b)
      case Medium => p.(masking := masking, step := StepShortLength)
      case Long => p.(masking := masking, step := StepExtendedLength)
      case Short => p.(masking := masking, length := b % 128, step := if masking then StepKey else StepData);
    if !masking && q.length == 0 then End(q) else (q, None)
  }

  /** last is the position of the last length byte. */
  function FeedLength(p: Parser, b: byte, last: nat): Parser {
    var n := OrBits(p.length, b * Pow256(p.lengthPos));
    if p.lengthPos == last then
      p.(length := ByteSwap(n, last + 1), step := if p.masking then StepKey else StepData)
    else p.(length := n, lengthPos := p.lengthPos + 1)
  }

  function FeedKey(p: Parser, b: byte): (Parser, Option<Message>)
    requires p.pos < 4
  {
    var q := p.(key := p.key[p.pos := b]);
    if p.pos == 3 then
      if p.length == 0 then End(q.(step := StepData)) else (q.(step := StepData), None)
    else (q.(pos := p.pos + 1), None)
  }

  function FeedData(p: Parser, b: byte): (Parser, Option<Message>)
    requires p.inKey < 4
  {
    var q := p.(buffer := p.buffer + [Xor(b, p.key[p.inKey])]);
    if |q.buffer| == p.length then End(q) else (q.(inKey := (p.inKey + 1) % 4), None)
  }

  /** One round of the loop of process_data, and the message it completes. */
  function Feed(p: Parser, b: byte): (r: (Parser, Option<Message>))
    requires Safe(p)
  {
    match p.step
    case StepStart => (FeedStart(p, b), None)
    case StepLength => FeedSecond(p, b)
    case StepShortLength => (FeedLength(p, b, 1), None)
    case StepExtendedLength => (FeedLength(p, b, 7), None)
    case StepKey => FeedKey(p, b)
    case StepData => FeedData(p, b)
  }

  lemma Scaled(b: byte, x: nat)
    ensures b * x <= 255 * x
  {
    assert (255 - b) * x >= 0;
  }

  lemma BelowNext(n: nat, b: byte, k: nat)
    requires n < Pow256(k)
    ensures n + b * Pow256(k) < Pow256(k + 1)
  {
    Scaled(b, Pow256(k));
    assert Pow256(k + 1) == 256 * Pow256(k);
  }

  lemma LengthSafe(p: Parser, b: byte)
    requires Safe(p) && (p.step == StepShortLength || p.step == StepExtendedLength)
    ensures Safe(Feed(p, b).0)
  {
    hide Pow256, ByteSwap;
    OrIsPlus(p.length, b, p.lengthPos);
    BelowNext(p.length, b, p.lengthPos);
    PowValues();
  }

  /** Whatever bytes arrive, masked or malformed, the parser stays safe. */
  lemma ParserSafe(p: Parser, b: byte)
    requires Safe(p)
    ensures Safe(Feed(p, b).0)
  {
    PowValues();
    if p.step == StepShortLength || p.step == StepExtendedLength {
      LengthSafe(p, b);
    }
  }

  /** process_data: the messages that are completed, in order */
  function FeedAll(p: Parser, data: seq<byte>): (r: (Parser, seq<Message>))
    requires Safe(p)
    ensures Safe(r.0)
    decreases |data|
  {
    if data == [] then (p, [])
    else
      ParserSafe(p, data[0]);
      var (q, m) := Feed(p, data[0]);
      var (r, ms) := FeedAll(q, data[1..]);
      (r, Listed(m) + ms)
  }

  function Listed(m: Option<Message>): seq<Message> {
    match m case None => [] case Some(x) => [x]
  }

  /** It makes no difference how the bytes are split into chunks. */
  lemma {:induction false} Chunked(p: Parser, a: seq<byte>, b: seq<byte>)
    requires Safe(p)
    ensures var (q, ms) := FeedAll(p, a);
      FeedAll(p, a + b) == (FeedAll(q, b).0, ms + FeedAll(q, b).1)
    decreases |a|
  {
    hide Feed, Safe;
    if a == [] {
      assert a + b == b;
      assert [] + FeedAll(p, b).1 == FeedAll(p, b).1;
    } else {
      ParserSafe(p, a[0]);
      var (q, m) := Feed(p, a[0]);
      assert (a + b)[0] == a[0] && (a + b)[1..] == a[1..] + b;
      Chunked(q, a[1..], b);
      var (r, ms) := FeedAll(q, a[1..]);
      var tail := FeedAll(r, b).1;
      assert Listed(m) + (ms + tail) == Listed(m) + ms + tail;
    }
  }

  // ---------- the parser as an incremental decoder ----------

  /** Frames whose second octet the parser understands: masked ones, and unmasked ones with the
      7-bit length. */
  predicate Readable(second: byte) {
    second >= 128 || FormOf(second) == Short
  }

  predicate FrameReadable(f: Frame) {
    f.mask.Some? || f.form == Short
  }

  /** What is delivered for a frame when k is the key left by the frames before it: an unmasked
      payload is xored all the same. */
  function Delivered(f: Frame, k: Key): Message {
    match f.mask
    case None => Message(f.head, Masked(f.payload, k))
    case Some(_) => Message(f.head, f.payload)
  }

  function KeyAfter(f: Frame, k: Key): Key {
    match f.mask case None => k case Some(key) => key
  }

  /** The parser has eaten s, the beginning of a frame; k is the key left by earlier frames. */
  ghost predicate Tracks(p: Parser, s: seq<byte>, k: Key) {
    && Safe(p)
    && if s == [] then p.step == StepStart && p.key == k
       else
         && p.header == s[0]
         && if |s| == 1 then p.step == StepLength && p.key == k
            else
              && Readable(s[1])
              && p.masking == (s[1] >= 128)
              && if |s| < LeadSize(s[1]) then TracksLength(p, s, k)
                 else p.length == LengthOf(s) && TracksBody(p, s[LeadSize(s[1])..], k)
  }

  ghost predicate TracksLength(p: Parser, s: seq<byte>, k: Key)
    requires |s| >= 2
  {
    && p.key == k
    && p.step == (if FormOf(s[1]) == Medium then StepShortLength else StepExtendedLength)
    && p.lengthPos == |s| - 2
    && p.length == FromLittle(s[2..])
  }

  ghost predicate TracksBody(p: Parser, t: seq<byte>, k: Key) {
    if !p.masking then p.step == StepData && p.key == k && p.buffer == Masked(t, k)
    else if |t| < 4 then p.step == StepKey && p.pos == |t| && p.key == t + k[|t|..]
    else p.step == StepData && p.key == t[..4] && p.buffer == Masked(t[4..], p.key)
  }

  /** What one byte must do: complete the frame, or lead on. */
  ghost predicate Advances(p: Parser, s: seq<byte>, k: Key, b: byte)
    requires Safe(p)
  {
    var (q, m) := Feed(p, b);
    match Decode(s + [b])
    case None => m == None && Tracks(q, s + [b], k)
    case Some((f, rest)) =>
      rest == [] && FrameReadable(f) && m == Some(Delivered(f, k)) && Tracks(q, [], KeyAfter(f, k))
  }

  lemma MaskedSnoc(t: seq<byte>, b: byte, key: Key)
    ensures Masked(t + [b], key) == Masked(t, key) + [Xor(b, key[|t| % 4])]
  {
  }

  /** No frame is complete while the parser is inside it. */
  lemma TracksIncomplete(p: Parser, s: seq<byte>, k: Key)
    requires Tracks(p, s, k)
    ensures Safe(p) && Decode(s) == None
  {
  }

  /** The bytes of the length so far, and one more. */
  lemma LengthMore(p: Parser, s: seq<byte>, k: Key, b: byte)
    requires Tracks(p, s, k) && 2 <= |s| < LeadSize(s[1])
    ensures Safe(Feed(p, b).0)
    ensures OrBits(p.length, b * Pow256(p.lengthPos)) == FromLittle((s + [b])[2..])
  {
    LengthSafe(p, b);
    OrIsPlus(p.length, b, p.lengthPos);
    FromLittleSnoc(s[2..], b);
    assert (s + [b])[2..] == s[2..] + [b];
  }

  lemma AdvanceLength(p: Parser, s: seq<byte>, k: Key, b: byte)
    requires Tracks(p, s, k) && 2 <= |s| < LeadSize(s[1])
    ensures Advances(p, s, k, b)
  {
    LengthMore(p, s, k, b);
    hide Pow256, FromLittle, OrBits, ByteSwap;
    var s' := s + [b];
    assert s'[0] == s[0] && s'[1] == s[1];
    if |s'| == LeadSize(s[1]) {
      LengthRead(s');
      assert s'[|s'|..] == [] && [] + k[0..] == k;
    }
  }

  lemma LengthRead(s: seq<byte>)
    requires |s| > 2 && |s| == LeadSize(s[1])
    ensures LengthOf(s) == ByteSwap(FromLittle(s[2..]), |s| - 2)
  {
    LittleEndianExact(s[2..]);
    assert s[2..|s|] == s[2..];
  }

  /** Reading one more byte of the masking key or the payload. */
  lemma BodyMore(s: seq<byte>, b: byte)
    requires |s| >= 2 && |s| >= LeadSize(s[1])
    ensures var s', w := s + [b], LeadSize(s[1]);
      && s'[0] == s[0] && s'[1] == s[1]
      && LengthOf(s') == LengthOf(s) && s'[w..] == s[w..] + [b]
  {
    var w := LeadSize(s[1]);
    assert (s + [b])[2..w] == s[2..w];
  }

  lemma AdvanceKey(p: Parser, s: seq<byte>, k: Key, b: byte)
    requires Tracks(p, s, k) && |s| >= 2 && |s| >= LeadSize(s[1]) && p.step == StepKey
    ensures Advances(p, s, k, b)
  {
    BodyMore(s, b);
    var t := s[LeadSize(s[1])..];
    var t' := t + [b];
    var q := Feed(p, b).0;
    assert q.key == t' + k[|t'|..];
    if |t'| == 4 {
      assert t'[..4] == t' && t'[4..] == [] && k[4..] == [];
      assert p.length == 0 ==> t'[4..4 + p.length] == [];
    }
  }

  /** The data of a frame so far, and with one more byte. */
  lemma DataMore(p: Parser, t: seq<byte>, k: Key, b: byte)
    requires Safe(p) && p.step == StepData && TracksBody(p, t, k)
    ensures var q := p.(buffer := p.buffer + [Xor(b, p.key[p.inKey])], inKey := (p.inKey + 1) % 4);
      TracksBody(q, t + [b], k)
    ensures |p.buffer| == |t| - if p.masking then 4 else 0
  {
    var at := if p.masking then 4 else 0;
    assert (t + [b])[at..] == t[at..] + [b];
    MaskedSnoc(t[at..], b, p.key);
    if p.masking {
      assert (t + [b])[..4] == t[..4];
    } else {
      assert t[0..] == t;
    }
  }

  lemma DataUnfinished(p: Parser, b: byte)
    requires Safe(p) && p.step == StepData && |p.buffer| + 1 < p.length
    ensures var q := p.(buffer := p.buffer + [Xor(b, p.key[p.inKey])], inKey := (p.inKey + 1) % 4);
      Safe(q) && Feed(p, b) == (q, None)
  {
  }

  /** The last byte is there. */
  lemma DataDone(p: Parser, t: seq<byte>, k: Key)
    requires TracksBody(p, t, k) && p.step == StepData
    requires |t| == p.length + if p.masking then 4 else 0
    ensures DecodeBody(p.masking, p.length, t)
      == Some((if p.masking then Some(p.key) else None, if p.masking then p.buffer else t, []))
  {
    if p.masking {
      assert t[4..4 + p.length] == t[4..] && t[4 + p.length..] == [];
    } else {
      assert t[..p.length] == t && t[p.length..] == [];
    }
  }

  /** A byte of the payload that is not the last one. */
  lemma AdvanceData(p: Parser, s: seq<byte>, k: Key, b: byte)
    requires Tracks(p, s, k) && |s| >= 2 && |s| >= LeadSize(s[1]) && p.step == StepData
    requires |p.buffer| + 1 < p.length
    ensures Advances(p, s, k, b)
  {
    BodyMore(s, b);
    DataMore(p, s[LeadSize(s[1])..], k, b);
    DataUnfinished(p, b);
    hide Masked, Pow256, LengthOf, Xor, Decode, Feed, TracksBody;
    TracksIncomplete(Feed(p, b).0, s + [b], k);
  }

  /** The last byte of the payload. */
  lemma AdvanceLast(p: Parser, s: seq<byte>, k: Key, b: byte)
    requires Tracks(p, s, k) && |s| >= 2 && |s| >= LeadSize(s[1]) && p.step == StepData
    requires |p.buffer| + 1 == p.length
    ensures Advances(p, s, k, b)
  {
    BodyMore(s, b);
    var t := s[LeadSize(s[1])..];
    DataMore(p, t, k, b);
    var q := p.(buffer := p.buffer + [Xor(b, p.key[p.inKey])], inKey := (p.inKey + 1) % 4);
    DataDone(q, t + [b], k);
    hide Masked, Pow256, LengthOf, Xor, DecodeBody, Readable;
  }

  lemma AdvanceSecond(p: Parser, s: seq<byte>, k: Key, b: byte)
    requires Tracks(p, s, k) && |s| == 1 && Readable(b)
    ensures Advances(p, s, k, b)
  {
    PowValues();
    var s' := s + [b];
    assert s'[2..] == [];
    assert [] + k[0..] == k && Masked([], k) == [];
  }

  lemma AdvanceStart(p: Parser, k: Key, b: byte)
    requires Tracks(p, [], k)
    ensures Advances(p, [], k, b)
  {
    assert [] + [b] == [b];
  }

  lemma Advance(p: Parser, s: seq<byte>, k: Key, b: byte)
    requires Tracks(p, s, k) && (|s| == 1 ==> Readable(b))
    ensures Advances(p, s, k, b)
  {
    if s == [] {
      AdvanceStart(p, k, b);
    } else if |s| == 1 {
      AdvanceSecond(p, s, k, b);
    } else if |s| < LeadSize(s[1]) {
      AdvanceLength(p, s, k, b);
    } else if p.step == StepKey {
      AdvanceKey(p, s, k, b);
    } else if |p.buffer| + 1 < p.length {
      AdvanceData(p, s, k, b);
    } else {
      AdvanceLast(p, s, k, b);
    }
  }

  /** All frames that have been begun can be read. */
  predicate AllReadable(s: seq<byte>) {
    var (fs, left) := DecodeAll(s);
    (forall f :: f in fs ==> FrameReadable(f)) && (|left| >= 2 ==> Readable(left[1]))
  }

  function DeliveredAll(fs: seq<Frame>, k: Key): (r: seq<Message>)
    ensures |r| == |fs|
  {
    if fs == [] then [] else [Delivered(fs[0], k)] + DeliveredAll(fs[1..], KeyAfter(fs[0], k))
  }

  lemma {:induction false} TracksOn(p: Parser, s: seq<byte>, k: Key, data: seq<byte>)
    requires Tracks(p, s, k) && AllReadable(s + data)
    ensures FeedAll(p, data).1 == DeliveredAll(DecodeAll(s + data).0, k)
    decreases |data|
  {
    hide Feed, Safe, Tracks, Decode, Readable, FrameReadable, Delivered;
    TracksIncomplete(p, s, k);
    if data == [] {
      assert s + data == s;
      return;
    }
    var b, rest := data[0], data[1..];
    var s' := s + [b];
    assert s' + rest == s + data;
    SecondReadable(s, data);
    Advance(p, s, k, b);
    ParserSafe(p, b);
    var q := Feed(p, b).0;
    if Decode(s') == None {
      TracksOn(q, s', k, rest);
      assert [] + FeedAll(q, rest).1 == FeedAll(q, rest).1;
    } else {
      var f := Decode(s').value.0;
      DecodeMore(s', rest);
      assert [] + rest == rest;
      FrameThen(s + data, f, rest);
      TracksOn(q, [], KeyAfter(f, k), rest);
    }
  }

  lemma FrameThen(s: seq<byte>, f: Frame, rest: seq<byte>)
    requires Decode(s) == Some((f, rest)) && AllReadable(s)
    ensures AllReadable(rest) && DecodeAll(s).0[1..] == DecodeAll(rest).0 && DecodeAll(s).0[0] == f
  {
    assert forall g :: g in DecodeAll(rest).0 ==> g in DecodeAll(s).0;
  }

  /** The second octet of the first frame can be read. */
  lemma SecondReadable(s: seq<byte>, data: seq<byte>)
    requires AllReadable(s + data) && data != []
    ensures |s| == 1 ==> Readable(data[0])
  {
    var t := s + data;
    if |s| == 1 && Decode(t).Some? {
      assert Decode(t).value.0 in DecodeAll(t).0;
    }
  }

  /** The parser is exact: for every stream of bytes in which all frames that are begun are masked, or
      unmasked with a 7-bit length, it delivers exactly the frames that a decoder finds, in order. */
  lemma ParserExact(data: seq<byte>)
    requires AllReadable(data)
    ensures FeedAll(NEW_PARSER, data).1 == DeliveredAll(DecodeAll(data).0, ZERO_KEY)
  {
    assert [] + data == data;
    TracksOn(NEW_PARSER, [], ZERO_KEY, data);
  }

  function MessagesOf(fs: seq<Frame>): (r: seq<Message>)
    ensures |r| == |fs| && forall i :: 0 <= i < |fs| ==> r[i] == Message(fs[i].head, fs[i].payload)
  {
    seq(|fs|, i requires 0 <= i < |fs| => Message(fs[i].head, fs[i].payload))
  }

  lemma {:induction false} MaskedDelivered(fs: seq<Frame>, k: Key)
    requires forall f :: f in fs ==> f.mask.Some?
    ensures DeliveredAll(fs, k) == MessagesOf(fs)
  {
    if fs != [] {
      assert fs[0] in fs && forall f :: f in fs[1..] ==> f in fs;
      MaskedDelivered(fs[1..], KeyAfter(fs[0], k));
    }
  }

  /** Any list of masked frames, followed by the beginning of another masked one and cut into chunks
      at will, gives exactly one message per frame, in order, with the unmasked payload. */
  lemma MaskedStream(fs: seq<Frame>, left: seq<byte>, chunks: seq<seq<byte>>)
    requires AllValid(fs) && forall f :: f in fs ==> f.mask.Some?
    requires Decode(left) == None && (|left| >= 2 ==> left[1] >= 128)
    requires Concat(chunks) == EncodeAll(fs) + left
    ensures FeedChunks(NEW_PARSER, chunks).1 == MessagesOf(fs)
  {
    var s := EncodeAll(fs) + left;
    DecodeAllEncodeAll(fs, left);
    assert DecodeAll(left) == ([], left) && fs + [] == fs;
    ParserExact(s);
    MaskedDelivered(fs, ZERO_KEY);
    AnyChunks(NEW_PARSER, chunks);
  }

  function Concat(chunks: seq<seq<byte>>): seq<byte> {
    if chunks == [] then [] else chunks[0] + Concat(chunks[1..])
  }

  /** process_data, once for each chunk */
  function FeedChunks(p: Parser, chunks: seq<seq<byte>>): (r: (Parser, seq<Message>))
    requires Safe(p)
    ensures Safe(r.0)
    decreases |chunks|
  {
    if chunks == [] then (p, [])
    else
      var (q, ms) := FeedAll(p, chunks[0]);
      var (r, more) := FeedChunks(q, chunks[1..]);
      (r, ms + more)
  }

  lemma {:induction false} AnyChunks(p: Parser, chunks: seq<seq<byte>>)
    requires Safe(p)
    ensures FeedChunks(p, chunks) == FeedAll(p, Concat(chunks))
    decreases |chunks|
  {
    hide Safe;
    if chunks != [] {
      Chunked(p, chunks[0], Concat(chunks[1..]));
      AnyChunks(FeedAll(p, chunks[0]).0, chunks[1..]);
    }
  }

  /** One frame, read by a parser that is ready for it, comes out right exactly when it is masked, or
      its length takes 7 bits and the part of the stale key that its payload meets is zero. */
  lemma FrameExact(p: Parser, f: Frame)
    requires Safe(p) && p.step == StepStart && f.Valid()
    ensures
      FeedAll(p, Encode(f)).1 == [Message(f.head, f.payload)]
      <==> f.mask.Some? || (f.form == Short && forall i :: 0 <= i < 4 && i < |f.payload| ==> p.key[i] == 0)
  {
    if FrameReadable(f) {
      ReadableFrame(p, f);
      if f.mask == None {
        MaskedSame(f.payload, p.key);
      }
    } else {
      EndedEarly(p, f);
    }
  }

  lemma ReadableFrame(p: Parser, f: Frame)
    requires Safe(p) && p.step == StepStart && f.Valid() && FrameReadable(f)
    ensures FeedAll(p, Encode(f)).1 == [Delivered(f, p.key)]
  {
    var s := Encode(f);
    DecodeEncode(f, []);
    assert s + [] == s && [] + s == s;
    assert DecodeAll(s) == ([f], []) by {
      assert DecodeAll([]) == ([], []);
      assert [f] + [] == [f];
    }
    TracksOn(p, [], p.key, s);
    assert [f][1..] == [];
    assert DeliveredAll([f][1..], KeyAfter(f, p.key)) == [];
  }

  /** An unmasked frame with an extended length is ended after two bytes, with an empty payload, and
      the zero bytes of its length are taken for more frames. */
  lemma EndedEarly(p: Parser, f: Frame)
    requires Safe(p) && p.step == StepStart && f.Valid() && !FrameReadable(f)
    ensures FeedAll(p, Encode(f)).1 != [Message(f.head, f.payload)]
  {
    var a, b := [f.head, Second(f)], Encode(f)[2..];
    assert Encode(f) == a + b;
    Chunked(p, a, b);
    TwoBytes(p, f.head, Second(f));
    if f.payload == [] {
      ZeroLength(f);
      var q := FeedAll(p, a).0;
      Chunked(q, [0, 0], b[2..]);
      EmptyFrame(q);
    }
  }

  lemma TwoBytes(p: Parser, x: byte, y: byte)
    requires Safe(p) && p.step == StepStart && !Readable(y)
    ensures var (q, ms) := FeedAll(p, [x, y]); q.step == StepStart && ms == [Message(x, [])]
  {
    var s := [x, y];
    assert s[1..] == [y] && [y][1..] == [];
    var q := FeedStart(p, x);
    ParserSafe(p, x);
    assert Feed(p, x) == (q, None);
    assert Feed(q, y) == FeedSecond(q, y);
    assert FeedAll(q, [y]).1 == [Message(x, [])] + [];
  }

  lemma ZeroLength(f: Frame)
    requires f.Valid() && !FrameReadable(f) && f.payload == []
    ensures var b := Encode(f)[2..]; |b| >= 2 && b == [0, 0] + b[2..]
  {
    Zeros(f.form.Width());
    var b := Encode(f)[2..];
    assert b == BigEndian(0, f.form.Width());
  }

  lemma {:induction false} Zeros(k: nat)
    ensures forall i :: 0 <= i < k ==> BigEndian(0, k)[i] == 0
  {
    if k > 0 {
      Zeros(k - 1);
    }
  }

  lemma EmptyFrame(p: Parser)
    requires Safe(p) && p.step == StepStart
    ensures FeedAll(p, [0, 0]).1 == [Message(0, [])]
  {
    var f := Frame(0, Short, None, []);
    assert Encode(f) == [0, 0];
    ReadableFrame(p, f);
    assert Masked([], p.key) == [];
  }
}
