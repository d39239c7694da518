/** The pair of latin-1 and UTF-8 conversions of ape_buffer.c. */
module Latin1 {
  import opened Bytes

  const QUESTION: byte := 63

  // ---------- UTF-8 ----------

  /** A character number that UTF-8 can encode (section 3 of RFC 3629). */
  predicate Scalar(c: nat) {
    c < 0x110000 && !(0xD800 <= c < 0xE000)
  }

  /** The octet sequence of a character, by the table in section 3 of RFC 3629. */
  function Octets(c: nat): (r: seq<byte>)
    requires Scalar(c)
    ensures 1 <= |r| <= 4
  {
    if c < 0x80 then [c]
    else if c < 0x800 then [0xC0 + c / 64, 0x80 + c % 64]
    else if c < 0x10000 then [0xE0 + c / 4096, 0x80 + c / 64 % 64, 0x80 + c % 64]
    else [0xF0 + c / 262144, 0x80 + c / 4096 % 64, 0x80 + c / 64 % 64, 0x80 + c % 64]
  }

  predicate AllScalar(cs: seq<nat>) {
    forall c :: c in cs ==> Scalar(c)
  }

  function Utf8(cs: seq<nat>): seq<byte>
    requires AllScalar(cs)
  {
    if cs == [] then []
    else
      assert cs[0] in cs && forall c :: c in cs[1..] ==> c in cs;
      Octets(cs[0]) + Utf8(cs[1..])
  }

  // ---------- the conversions ----------

  /** What the loop of buffer_to_buffer_utf8 stores for a byte. */
  function EncodeByte(c: byte): seq<byte> {
    if c < 0x80 then [c] else [0xC0 + c / 64, 0x80 + c % 64]
  }

  function Encoded(bs: seq<byte>): seq<byte> {
    if bs == [] then [] else EncodeByte(bs[0]) + Encoded(bs[1..])
  }

  /** How many bytes buffer_utf8_to_buffer skips for a first byte. */
  function Length(c: byte): nat {
    if c >= 0xF0 then 4 else if c >= 0xE0 then 3 else if c >= 0xC0 then 2 else 1
  }

  /** The payload bits of a continuation octet. */
  function Low(c: byte): nat {
    c % 64
  }

  /** What it makes of them. Of three bytes it keeps two bits too many of the first one, so that the
      result is never below 256. */
  function Value(s: seq<byte>): nat
    requires s != []
  {
    if |s| < Length(s[0]) then QUESTION
    else
      match Length(s[0])
      case 4 => Low(s[0]) % 8 * 262144 + Low(s[1]) * 4096 + Low(s[2]) * 64 + Low(s[3])
      case 3 => Low(s[0]) * 4096 + Low(s[1]) * 64 + Low(s[2])
      case 2 => Low(s[0]) * 64 + Low(s[1])
      case _ => s[0]
  }

  function Narrow(c: nat): byte {
    if c > 0xFF then QUESTION else c
  }

  function Decoded(s: seq<byte>): (r: seq<byte>)
    ensures |r| <= |s|
    decreases |s|
  {
    if s == [] then [] else [Narrow(Value(s))] + Decoded(s[Min(Length(s[0]), |s|)..])
  }

  // ---------- what they mean ----------

  /** Every byte as a character. */
  function Characters(bs: seq<byte>): (r: seq<nat>)
    ensures |r| == |bs| && (forall i :: 0 <= i < |r| ==> r[i] == bs[i]) && AllScalar(r)
  {
    seq(|bs|, i requires 0 <= i < |bs| => bs[i])
  }

  /** Every character as a byte, with a question mark for those that are not in latin-1. */
  function Narrowed(cs: seq<nat>): (r: seq<byte>)
    ensures |r| == |cs| && forall i :: 0 <= i < |r| ==> r[i] == if cs[i] < 256 then cs[i] else 63
  {
    seq(|cs|, i requires 0 <= i < |cs| => if cs[i] < 256 then cs[i] else 63)
  }

  /** The encoder writes well-formed UTF-8: that of the bytes as characters. */
  lemma {:induction false} EncodedIsUtf8(bs: seq<byte>)
    ensures Encoded(bs) == Utf8(Characters(bs))
  {
    if bs != [] {
      EncodedIsUtf8(bs[1..]);
      assert Characters(bs)[1..] == Characters(bs[1..]);
    }
  }

  lemma OneCharacter(c: nat, rest: seq<byte>)
    requires Scalar(c)
    ensures var s := Octets(c) + rest;
      Length(s[0]) == |Octets(c)| && Narrow(Value(s)) == Narrow(c)
  {
    if c < 0x80 {
    } else if c < 0x800 {
      TwoOctets(c);
    } else if c < 0x10000 {
      assert (0xE0 + c / 4096) % 64 >= 32;
    } else {
      FourOctets(c);
    }
  }

  lemma TwoOctets(c: nat)
    requires 0x80 <= c < 0x800
    ensures (0xC0 + c / 64) % 64 * 64 + (0x80 + c % 64) % 64 == c
  {
    assert (0xC0 + c / 64) % 64 == c / 64;
    assert (0x80 + c % 64) % 64 == c % 64;
  }

  lemma FourOctets(c: nat)
    requires 0x10000 <= c < 0x110000
    ensures (0xF0 + c / 262144) % 64 % 8 * 262144 + (0x80 + c / 4096 % 64) % 64 * 4096 > 0xFF
  {
    assert (0xF0 + c / 262144) % 64 % 8 == c / 262144;
    assert (0x80 + c / 4096 % 64) % 64 == c / 4096 % 64;
    assert c / 4096 == c / 262144 * 64 + c / 4096 % 64;
  }

  lemma FirstDecoded(c: nat, rest: seq<byte>)
    requires Scalar(c)
    ensures Decoded(Octets(c) + rest) == [Narrow(c)] + Decoded(rest)
  {
    OneCharacter(c, rest);
    assert (Octets(c) + rest)[|Octets(c)|..] == rest;
    hide Octets, Value;
  }

  lemma Regrouped(a: seq<byte>, b: seq<byte>, c: seq<byte>)
    ensures a + b + c == a + (b + c)
  {
  }

  /** A text, and whatever follows it. */
  lemma {:induction false} DecodedMore(cs: seq<nat>, more: seq<byte>)
    requires AllScalar(cs)
    ensures Decoded(Utf8(cs) + more) == Narrowed(cs) + Decoded(more)
  {
    hide Decoded, Octets, Scalar;
    if cs == [] {
      assert Utf8(cs) + more == more;
    } else {
      assert cs[0] in cs && forall c :: c in cs[1..] ==> c in cs;
      var rest := Utf8(cs[1..]);
      FirstDecoded(cs[0], rest + more);
      DecodedMore(cs[1..], more);
      Regrouped(Octets(cs[0]), rest, more);
      Regrouped([Narrow(cs[0])], Narrowed(cs[1..]), Decoded(more));
      assert Narrowed(cs) == [Narrow(cs[0])] + Narrowed(cs[1..]);
    }
  }

  /** The decoder reads all of UTF-8: a character below 256 becomes that byte, any other one a question
      mark. */
  lemma DecodedUtf8(cs: seq<nat>)
    requires AllScalar(cs)
    ensures |Decoded(Utf8(cs))| == |cs|
    ensures forall i :: 0 <= i < |cs| ==> Decoded(Utf8(cs))[i] == if cs[i] < 256 then cs[i] else 63
  {
    DecodedMore(cs, []);
    assert Utf8(cs) + [] == Utf8(cs);
  }

  /** Where the text is cut within a character, all that is there of it becomes one question mark. */
  lemma DecodedCut(cs: seq<nat>, c: nat, k: nat)
    requires AllScalar(cs) && Scalar(c) && 0 < k < |Octets(c)|
    ensures Decoded(Utf8(cs) + Octets(c)[..k]) == Decoded(Utf8(cs)) + [63]
  {
    var part := Octets(c)[..k];
    assert Length(part[0]) == |Octets(c)|;
    assert Decoded(part) == [63] + Decoded(part[k..]);
    DecodedMore(cs, part);
    DecodedMore(cs, []);
    assert Utf8(cs) + [] == Utf8(cs);
  }

  /** The number of bytes from 0x80 on. */
  function High(bs: seq<byte>): nat {
    if bs == [] then 0 else (if bs[0] >= 0x80 then 1 else 0) + High(bs[1..])
  }

  lemma {:induction false} EncodedLength(bs: seq<byte>)
    ensures |Encoded(bs)| == |bs| + High(bs) && High(bs) <= |bs|
  {
    if bs != [] {
      EncodedLength(bs[1..]);
    }
  }

  lemma DecodedEncoded(bs: seq<byte>)
    ensures Decoded(Encoded(bs)) == bs
  {
    EncodedIsUtf8(bs);
    DecodedUtf8(Characters(bs));
  }

  // ---------- with an int for the position ----------

  const INT_MAX: nat := 0x7FFF_FFFF
  const U32: nat := 0x1_0000_0000

  /** int pos = b->used */
  function ToInt(used: nat): int {
    var low := used % U32;
    if low <= INT_MAX then low else low - U32
  }

  /** The bytes the loops look at. */
  function Seen(bs: seq<byte>): seq<byte> {
    if ToInt(|bs|) > 0 then bs[..ToInt(|bs|)] else []
  }

  /** Converting to UTF-8 and back gives the same bytes, if and only if the UTF-8 form is shorter than
      2 GiB. */
  lemma RoundTrip(bs: seq<byte>)
    ensures Decoded(Seen(Encoded(Seen(bs)))) == bs <==> |bs| + High(bs) <= INT_MAX
  {
    EncodedLength(bs);
    if |bs| <= INT_MAX {
      WholeSeen(bs);
      EncodedSeen(bs);
    } else {
      SeenPrefix(bs);
      ShortSeen(Seen(bs), bs);
    }
  }

  lemma WholeSeen(s: seq<byte>)
    ensures |s| <= INT_MAX ==> Seen(s) == s
    ensures INT_MAX < |s| < U32 ==> Seen(s) == []
  {
  }

  lemma EncodedSeen(bs: seq<byte>)
    requires |bs| <= INT_MAX
    ensures Decoded(Seen(Encoded(bs))) == bs <==> |bs| + High(bs) <= INT_MAX
  {
    hide Encoded, Decoded, Seen;
    EncodedLength(bs);
    DecodedEncoded(bs);
    WholeSeen(Encoded(bs));
    if |Encoded(bs)| > INT_MAX {
      DecodedNone();
    }
  }

  lemma DecodedNone()
    ensures Decoded([]) == []
  {
  }

  lemma ShortSeen(part: seq<byte>, bs: seq<byte>)
    requires |part| < |bs|
    ensures Decoded(Seen(Encoded(part))) != bs
  {
    SeenPrefix(Encoded(part));
    DecodedShort(part, |Seen(Encoded(part))|);
  }

  lemma SeenPrefix(s: seq<byte>)
    ensures |Seen(s)| <= |s| && Seen(s) == s[..|Seen(s)|]
    ensures |s| > INT_MAX ==> |Seen(s)| < |s|
  {
  }

  /** No part of the UTF-8 form of a run of bytes decodes to more bytes. */
  lemma {:induction false} DecodedShort(bs: seq<byte>, n: nat)
    requires n <= |Encoded(bs)|
    ensures |Decoded(Encoded(bs)[..n])| <= |bs|
  {
    var s := Encoded(bs)[..n];
    if s != [] {
      var k := |EncodeByte(bs[0])|;
      assert Length(s[0]) == k;
      if n >= k {
        assert s[k..] == Encoded(bs[1..])[..n - k];
        DecodedShort(bs[1..], n - k);
      } else {
        assert s[Min(k, n)..] == [];
      }
    }
  }

  /** buffer */
  class Buffer {
    var data: array<byte>
    var used: nat

    predicate Valid()
      reads this
    {
      used <= data.Length
    }

    function Contents(): seq<byte>
      reads this, data
      requires Valid()
    {
      data[..used]
    }

    /** buffer_new */
    constructor (size: nat)
      ensures Valid() && used == 0 && data.Length == size && fresh(data) && Contents() == []
    {
      data := new byte[size](i => 0);
      used := 0;
    }

    method Put(c: byte)
      requires Valid() && used < data.Length
      modifies this`used, data
      ensures Valid() && Contents() == old(Contents()) + [c]
    {
      data[used] := c;
      used := used + 1;
    }

    /** The zero byte at the end. */
    method End()
      requires Valid() && used < data.Length
      modifies data
      ensures Valid() && Contents() == old(Contents()) && data[used] == 0
    {
      data[used] := 0;
    }
  }

  /** What the loop of buffer_to_buffer_utf8 stores for a byte. The branches for larger characters are
      never taken. */
  method PutEncoded(newb: Buffer, c: byte)
    requires newb.Valid() && newb.used + 1 < newb.data.Length
    modifies newb`used, newb.data
    ensures newb.Valid() && newb.Contents() == old(newb.Contents()) + EncodeByte(c)
  {
    if c < 0x80 {
      newb.Put(c);
    } else {
      newb.Put(0xC0 + c / 64);
      newb.Put(0x80 + c % 64);
    }
  }

  /** buffer_to_buffer_utf8, which also ends what it writes with a zero byte. */
  method ToUtf8(b: Buffer) returns (newb: Buffer)
    requires b.Valid()
    ensures newb.Valid() && newb.Contents() == Encoded(Seen(b.Contents()))
    ensures newb.used < newb.data.Length && newb.data[newb.used] == 0
  {
    var pos := ToInt(b.used);
    ghost var all := Seen(b.Contents());
    var s := 0;
    newb := new Buffer(b.used * 4 + 1);
    assert all[0..] == all;
    hide EncodeByte;
    while pos > 0
      invariant 0 <= s <= |all| && (pos > 0 ==> pos == |all| - s) && (pos <= 0 ==> s == |all|)
      invariant fresh(newb) && fresh(newb.data) && newb.data.Length == b.used * 4 + 1
      invariant newb.Valid() && newb.used <= 4 * s
      invariant newb.Contents() + Encoded(all[s..]) == Encoded(all)
      decreases pos
    {
      EncodedNext(all, s, newb.Contents());
      assert b.data[s] == all[s];
      AtMostTwo(all[s]);
      PutEncoded(newb, b.data[s]);
      pos := pos - 1;
      s := s + 1;
    }
    assert all[s..] == [];
    assert newb.Contents() + [] == newb.Contents();
    newb.End();
  }

  lemma AtMostTwo(c: byte)
    ensures |EncodeByte(c)| <= 2
  {
  }

  lemma EncodedNext(all: seq<byte>, s: nat, done: seq<byte>)
    requires s < |all|
    ensures done + EncodeByte(all[s]) + Encoded(all[s + 1..]) == done + Encoded(all[s..])
  {
    assert all[s..][0] == all[s] && all[s..][1..] == all[s + 1..];
  }

  /** What is left to read from position s on. */
  ghost function Left(all: seq<byte>, s: nat): seq<byte> {
    all[Min(s, |all|)..]
  }

  /** What has been decoded before position s, and the decoding of what is left, make up the whole. */
  ghost predicate Halfway(done: seq<byte>, all: seq<byte>, s: nat) {
    done + Decoded(Left(all, s)) == Decoded(all)
  }

  lemma HalfwayEnds(done: seq<byte>, all: seq<byte>, s: nat)
    ensures Halfway([], all, 0)
    ensures s >= |all| && Halfway(done, all, s) ==> done == Decoded(all)
  {
    assert Left(all, 0) == all && [] + Decoded(all) == Decoded(all);
    assert done + [] == done;
  }

  /** The body of the loop of buffer_utf8_to_buffer, and how far it steps. */
  method DecodeStep(b: Buffer, s: nat, pos: int, newb: Buffer, ghost all: seq<byte>) returns (n: nat)
    requires b.Valid() && newb.Valid() && b != newb && b.data != newb.data && newb.used < newb.data.Length
    requires 0 < pos && s + pos == |all| <= b.used && all == b.data[..|all|]
    modifies newb`used, newb.data
    ensures newb.Valid() && newb.used == old(newb.used) + 1 && n > 0
    ensures Halfway(old(newb.Contents()), all, s) ==> Halfway(newb.Contents(), all, s + n)
  {
    DecodedNext(all, s, newb.Contents());
    hide Decoded, Value, Length, Narrow, Low;
    assert b.data[s] == all[s] && b.data[s..s + pos] == all[s..];
    var c;
    c, n := DecodeAt(b.data, s, pos);
    newb.Put(Narrow(c));
  }

  /** The loop of buffer_utf8_to_buffer. */
  method DecodeLoop(b: Buffer, newb: Buffer, ghost all: seq<byte>)
    requires b.Valid() && newb.Valid() && b != newb && b.data != newb.data && newb.used == 0
    requires all == Seen(b.Contents()) && b.used < newb.data.Length
    modifies newb`used, newb.data
    ensures newb.Valid() && newb.Contents() == Decoded(all) && newb.used < newb.data.Length
  {
    var pos := ToInt(b.used);
    var s := 0;
    assert |all| <= b.used && all == b.data[..|all|] && newb.Contents() == [];
    HalfwayEnds([], all, 0);
    hide Halfway, Decoded, Seen, ToInt;
    while pos > 0
      invariant 0 <= s && (pos > 0 ==> s + pos == |all|) && (pos <= 0 ==> s >= |all|)
      invariant newb.Valid() && newb.used <= s && newb.used <= |all|
      invariant Halfway(newb.Contents(), all, s)
      decreases pos
    {
      var n := DecodeStep(b, s, pos, newb, all);
      s := s + n;
      pos := pos - n;
    }
    HalfwayEnds(newb.Contents(), all, s);
  }

  /** buffer_utf8_to_buffer: whatever the bytes, it does not read behind them. */
  method FromUtf8(b: Buffer) returns (newb: Buffer)
    requires b.Valid()
    ensures newb.Valid() && newb.Contents() == Decoded(Seen(b.Contents()))
    ensures newb.used < newb.data.Length && newb.data[newb.used] == 0
  {
    newb := new Buffer(b.used + 1);
    DecodeLoop(b, newb, Seen(b.Contents()));
    newb.End();
  }

  lemma DecodedNext(all: seq<byte>, s: nat, done: seq<byte>)
    requires s < |all|
    ensures var rest, next := all[s..], s + Length(all[s]);
      done + [Narrow(Value(rest))] + Decoded(all[Min(next, |all|)..]) == done + Decoded(rest)
  {
    var rest, n := all[s..], Length(all[s]);
    assert rest[Min(n, |rest|)..] == all[Min(s + n, |all|)..];
  }

  /** The branches of the loop, and how far they step. */
  method DecodeAt(data: array<byte>, s: nat, pos: int) returns (c: nat, n: nat)
    requires 0 < pos && s + pos <= data.Length
    ensures n == Length(data[s]) > 0 && c == Value(data[s..s + pos])
  {
    c := data[s];
    n := 1;
    if c >= 0xF0 {
      n := 4;
      c := if pos - 4 >= 0
           then Low(data[s]) % 8 * 262144 + Low(data[s + 1]) * 4096 + Low(data[s + 2]) * 64 + Low(data[s + 3])
           else QUESTION;
    } else if c >= 0xE0 {
      n := 3;
      c := if pos - 3 >= 0 then Low(data[s]) * 4096 + Low(data[s + 1]) * 64 + Low(data[s + 2]) else QUESTION;
    } else if c >= 0xC0 {
      n := 2;
      c := if pos - 2 >= 0 then Low(data[s]) * 64 + Low(data[s + 1]) else QUESTION;
    }
  }
}
