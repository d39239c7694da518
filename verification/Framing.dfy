/** The base framing protocol of WebSockets: sections 5.2 and 5.3 of RFC 6455. */
module Framing {
  import opened Options
  import opened Bytes

  // ---------- exclusive or ----------

  /** Bitwise exclusive or. */
  function XorBits(a: nat, b: nat): nat {
    if a == 0 && b == 0 then 0 else (if a % 2 == b % 2 then 0 else 1) + 2 * XorBits(a / 2, b / 2)
  }

  lemma {:induction false} XorBound(a: nat, b: nat, n: nat)
    requires a < Pow2(n) && b < Pow2(n)
    ensures XorBits(a, b) < Pow2(n)
    decreases n
  {
    if !(a == 0 && b == 0) {
      XorBound(a / 2, b / 2, n - 1);
    }
  }

  function Pow2(n: nat): (r: nat)
    ensures r > 0
  {
    if n == 0 then 1 else 2 * Pow2(n - 1)
  }

  function Xor(a: byte, b: byte): byte {
    assert Pow2(8) == 256 by {
      assert Pow2(4) == 16;
    }
    XorBound(a, b, 8);
    XorBits(a, b)
  }

  /** The lowest bit and the others, in every case. */
  lemma XorHalves(a: nat, b: nat)
    ensures XorBits(a, b) % 2 == (if a % 2 == b % 2 then 0 else 1)
    ensures XorBits(a, b) / 2 == XorBits(a / 2, b / 2)
  {
    if a > 0 || b > 0 {
      DigitOff(if a % 2 == b % 2 then 0 else 1, XorBits(a / 2, b / 2));
    }
  }

  lemma DigitOff(d: nat, q: nat)
    requires d < 2
    ensures (d + 2 * q) % 2 == d && (d + 2 * q) / 2 == q
  {
  }

  lemma {:induction false} XorBitsTwice(a: nat, k: nat)
    ensures XorBits(XorBits(a, k), k) == a
    decreases a + k
  {
    if a > 0 || k > 0 {
      var x := XorBits(a, k);
      XorHalves(a, k);
      XorHalves(x, k);
      XorBitsTwice(a / 2, k / 2);
    }
  }

  lemma {:induction false} XorBitsSame(a: nat, k: nat)
    ensures XorBits(a, k) == a <==> k == 0
    decreases a + k
  {
    if !(a == 0 && k == 0) {
      XorBitsSame(a / 2, k / 2);
    }
  }

  lemma XorTwice(a: byte, k: byte)
    ensures Xor(Xor(a, k), k) == a
  {
    XorBitsTwice(a, k);
  }

  lemma XorSame(a: byte, k: byte)
    ensures Xor(a, k) == a <==> k == 0
  {
    XorBitsSame(a, k);
  }

  // ---------- masking ----------

  type Key = k: seq<byte> | |k| == 4 witness [0, 0, 0, 0]

  const ZERO_KEY: Key := [0, 0, 0, 0]

  /** Section 5.3: octet i of the data is xored with octet i mod 4 of the key. */
  function Masked(data: seq<byte>, key: Key): (r: seq<byte>)
    ensures |r| == |data| && forall i :: 0 <= i < |r| ==> r[i] == Xor(data[i], key[i % 4])
  {
    seq(|data|, i requires 0 <= i < |data| => Xor(data[i], key[i % 4]))
  }

  /** Masking is its own inverse. */
  lemma MaskedTwice(data: seq<byte>, key: Key)
    ensures Masked(Masked(data, key), key) == data
  {
    forall i | 0 <= i < |data|
      ensures Masked(Masked(data, key), key)[i] == data[i]
    {
      XorTwice(data[i], key[i % 4]);
    }
  }

  /** It leaves the data alone exactly when the part of the key it uses is zero. */
  lemma MaskedSame(data: seq<byte>, key: Key)
    ensures Masked(data, key) == data <==> forall i :: 0 <= i < 4 && i < |data| ==> key[i] == 0
  {
    forall i | 0 <= i < |data|
      ensures Masked(data, key)[i] == data[i] <==> key[i % 4] == 0
    {
      XorSame(data[i], key[i % 4]);
    }
    if Masked(data, key) == data {
      forall i | 0 <= i < 4 && i < |data|
        ensures key[i] == 0
      {
        assert Masked(data, key)[i] == data[i];
      }
    }
  }

  // ---------- numbers ----------

  function Pow256(k: nat): (r: nat)
    ensures r > 0
  {
    if k == 0 then 1 else 256 * Pow256(k - 1)
  }

  /** n in k bytes, in network byte order */
  function BigEndian(n: nat, k: nat): (r: seq<byte>)
    ensures |r| == k
  {
    if k == 0 then [] else BigEndian(n / 256, k - 1) + [n % 256]
  }

  function FromBig(bs: seq<byte>): nat {
    if bs == [] then 0 else 256 * FromBig(bs[..|bs| - 1]) + bs[|bs| - 1]
  }

  lemma {:induction false} BigEndianExact(n: nat, k: nat)
    requires n < Pow256(k)
    ensures FromBig(BigEndian(n, k)) == n
  {
    if k > 0 {
      BigEndianExact(n / 256, k - 1);
      assert BigEndian(n, k)[..k - 1] == BigEndian(n / 256, k - 1);
    }
  }

  lemma {:induction false} FromBigExact(bs: seq<byte>)
    ensures FromBig(bs) < Pow256(|bs|) && BigEndian(FromBig(bs), |bs|) == bs
  {
    if bs != [] {
      FromBigExact(bs[..|bs| - 1]);
      assert bs == bs[..|bs| - 1] + [bs[|bs| - 1]];
    }
  }

  // ---------- frames ----------

  /** The three forms of the payload length field: 7 bits, 7+16 bits, 7+64 bits. */
  datatype Form = Short | Medium | Long {
    /** The number of extended length octets. */
    function Width(): nat {
      match this
      case Short => 0
      case Medium => 2
      case Long => 8
    }
  }

  /** head is the first octet: FIN, RSV1 to RSV3 and the opcode. The payload is unmasked. */
  datatype Frame = Frame(head: byte, form: Form, mask: Option<Key>, payload: seq<byte>) {
    /** The length can be written in the chosen form. */
    predicate Valid() {
      match form
      case Short => |payload| <= 125
      case Medium => |payload| < Pow256(2)
      case Long => |payload| < Pow256(8)
    }

    function Opcode(): nat {
      head % 16
    }
  }

  /** The 7-bit length field. */
  function Code(f: Frame): byte
    requires f.Valid()
  {
    match f.form
    case Short => |f.payload|
    case Medium => 126
    case Long => 127
  }

  /** The second octet. */
  function Second(f: Frame): byte
    requires f.Valid()
  {
    (if f.mask.Some? then 128 else 0) + Code(f)
  }

  /** The octets before the masking key. */
  function Lead(f: Frame): seq<byte>
    requires f.Valid()
  {
    [f.head, Second(f)] + BigEndian(|f.payload|, f.form.Width())
  }

  /** The masking key and the payload. */
  function Body(f: Frame): seq<byte> {
    match f.mask
    case None => f.payload
    case Some(key) => key + Masked(f.payload, key)
  }

  /** The octets of a frame. */
  function Encode(f: Frame): seq<byte>
    requires f.Valid()
  {
    Lead(f) + Body(f)
  }

  function FormOf(second: byte): Form {
    if second % 128 == 126 then Medium else if second % 128 == 127 then Long else Short
  }

  /** The number of octets before the masking key. */
  function LeadSize(second: byte): nat {
    2 + FormOf(second).Width()
  }

  /** The payload length of a frame of which at least the octets up to the masking key are given. */
  function LengthOf(s: seq<byte>): nat
    requires |s| >= 2 && |s| >= LeadSize(s[1])
  {
    if FormOf(s[1]) == Short then s[1] % 128 else FromBig(s[2..LeadSize(s[1])])
  }

  /** The masking key, the payload and what follows it. */
  function DecodeBody(masked: bool, n: nat, s: seq<byte>): (r: Option<(Option<Key>, seq<byte>, seq<byte>)>)
    ensures r.Some? ==> |r.value.2| <= |s|
  {
    if masked then
      if |s| < 4 + n then None
      else
        var key: Key := s[..4];
        Some((Some(key), Masked(s[4..4 + n], key), s[4 + n..]))
    else if |s| < n then None else Some((None, s[..n], s[n..]))
  }

  /** The first frame of a run of octets, and the octets behind it; None while it is incomplete. */
  function Decode(s: seq<byte>): (r: Option<(Frame, seq<byte>)>)
    ensures r.Some? ==> |r.value.1| < |s|
  {
    if |s| < 2 || |s| < LeadSize(s[1]) then None
    else
      match DecodeBody(s[1] >= 128, LengthOf(s), s[LeadSize(s[1])..])
      case None => None
      case Some((mask, payload, rest)) => Some((Frame(s[0], FormOf(s[1]), mask, payload), rest))
  }

  lemma PowValues()
    ensures Pow256(2) == 0x1_0000 && Pow256(4) == 0x1_0000_0000 && Pow256(8) == 0x1_0000_0000_0000_0000
  {
    assert Pow256(1) == 256;
    assert Pow256(3) == 256 * Pow256(2);
    assert Pow256(5) == 256 * Pow256(4);
    assert Pow256(6) == 256 * Pow256(5);
    assert Pow256(7) == 256 * Pow256(6);
  }

  lemma LeadRead(f: Frame, t: seq<byte>)
    requires f.Valid()
    ensures var s := Lead(f) + t;
      && |s| >= 2 && s[0] == f.head && s[1] == Second(f)
      && FormOf(s[1]) == f.form && (s[1] >= 128 <==> f.mask.Some?)
      && |s| >= LeadSize(s[1]) && LengthOf(s) == |f.payload| && s[LeadSize(s[1])..] == t
  {
    var s, w := Lead(f) + t, f.form.Width();
    assert s[2..2 + w] == BigEndian(|f.payload|, w);
    if w > 0 {
      BigEndianExact(|f.payload|, w);
    }
  }

  lemma BodyRead(f: Frame, rest: seq<byte>)
    ensures DecodeBody(f.mask.Some?, |f.payload|, Body(f) + rest) == Some((f.mask, f.payload, rest))
  {
    var s, n := Body(f) + rest, |f.payload|;
    if f.mask.Some? {
      assert s[..4] == f.mask.value && s[4..4 + n] == Masked(f.payload, f.mask.value) && s[4 + n..] == rest;
      MaskedTwice(f.payload, f.mask.value);
    } else {
      assert s[..n] == f.payload && s[n..] == rest;
    }
  }

  /** Decoding undoes encoding. */
  lemma DecodeEncode(f: Frame, rest: seq<byte>)
    requires f.Valid()
    ensures Decode(Encode(f) + rest) == Some((f, rest))
  {
    LeadRead(f, Body(f) + rest);
    BodyRead(f, rest);
    hide Lead, Body, LengthOf, DecodeBody, FormOf;
    assert Encode(f) + rest == Lead(f) + (Body(f) + rest);
  }

  lemma LeadWritten(s: seq<byte>, f: Frame)
    requires |s| >= 2 && |s| >= LeadSize(s[1]) && LengthOf(s) == |f.payload|
    requires f.head == s[0] && f.form == FormOf(s[1]) && (f.mask.Some? <==> s[1] >= 128)
    ensures f.Valid() && Lead(f) == s[..LeadSize(s[1])]
  {
    var bs := s[2..LeadSize(s[1])];
    FromBigExact(bs);
    PowValues();
    assert Second(f) == s[1];
    assert s[..LeadSize(s[1])] == s[..2] + bs;
  }

  lemma BodyWritten(f: Frame, n: nat, s: seq<byte>, rest: seq<byte>)
    requires DecodeBody(f.mask.Some?, n, s) == Some((f.mask, f.payload, rest))
    ensures |f.payload| == n && s == Body(f) + rest
  {
    if f.mask.Some? {
      MaskedTwice(s[4..4 + n], f.mask.value);
      assert s == s[..4] + s[4..4 + n] + s[4 + n..];
    }
  }

  /** Encoding undoes decoding. */
  lemma EncodeDecode(s: seq<byte>)
    requires Decode(s).Some?
    ensures var (f, rest) := Decode(s).value; f.Valid() && s == Encode(f) + rest
  {
    var (f, rest) := Decode(s).value;
    var k := LeadSize(s[1]);
    BodyWritten(f, LengthOf(s), s[k..], rest);
    LeadWritten(s, f);
    Rejoined(s, k, Lead(f), Body(f), rest);
  }

  lemma Rejoined(s: seq<byte>, k: nat, a: seq<byte>, b: seq<byte>, c: seq<byte>)
    requires k <= |s| && s[..k] == a && s[k..] == b + c
    ensures s == a + b + c
  {
    assert s == s[..k] + s[k..];
  }

  /** More octets do not change a frame that is complete. */
  lemma DecodeMore(s: seq<byte>, t: seq<byte>)
    requires Decode(s).Some?
    ensures Decode(s + t) == Some((Decode(s).value.0, Decode(s).value.1 + t))
  {
    hide Decode, Encode;
    var (f, rest) := Decode(s).value;
    EncodeDecode(s);
    DecodeEncode(f, rest + t);
    assert s + t == Encode(f) + (rest + t);
  }

  /** All frames of a run of octets, and the octets of the one that is incomplete. */
  function DecodeAll(s: seq<byte>): (seq<Frame>, seq<byte>)
    decreases |s|
  {
    match Decode(s)
    case None => ([], s)
    case Some((f, rest)) =>
      var (fs, left) := DecodeAll(rest);
      ([f] + fs, left)
  }

  predicate AllValid(fs: seq<Frame>) {
    forall f :: f in fs ==> f.Valid()
  }

  function EncodeAll(fs: seq<Frame>): seq<byte>
    requires AllValid(fs)
  {
    if fs == [] then [] else Encode(fs[0]) + EncodeAll(fs[1..])
  }

  /** Decoding a whole stream gives the frames that were encoded, whatever follows them. */
  lemma {:induction false} DecodeAllEncodeAll(fs: seq<Frame>, more: seq<byte>)
    requires AllValid(fs)
    ensures DecodeAll(EncodeAll(fs) + more) == (fs + DecodeAll(more).0, DecodeAll(more).1)
  {
    hide Decode, Encode;
    var (gs, left) := DecodeAll(more);
    if fs == [] {
      assert EncodeAll(fs) + more == more && fs + gs == gs;
    } else {
      var tail := EncodeAll(fs[1..]) + more;
      assert EncodeAll(fs) + more == Encode(fs[0]) + tail;
      DecodeEncode(fs[0], tail);
      DecodeAllEncodeAll(fs[1..], more);
      assert fs + gs == [fs[0]] + (fs[1..] + gs);
    }
  }

  /** Encoding what was decoded from a stream gives the stream back. */
  lemma {:induction false} EncodeAllDecodeAll(s: seq<byte>)
    ensures var (fs, left) := DecodeAll(s);
      AllValid(fs) && s == EncodeAll(fs) + left && Decode(left) == None
    decreases |s|
  {
    hide Decode, Encode;
    if Decode(s).Some? {
      EncodeDecode(s);
      var (f, rest) := Decode(s).value;
      EncodeAllDecodeAll(rest);
      var (fs, left) := DecodeAll(rest);
      assert ([f] + fs)[1..] == fs;
      assert Encode(f) + EncodeAll(fs) + left == Encode(f) + (EncodeAll(fs) + left);
    }
  }

  /** What is decoded from the first part of a stream is the first part of what is decoded from it all. */
  lemma DecodePrefix(s: seq<byte>, t: seq<byte>)
    requires s <= t
    ensures DecodeAll(s).0 <= DecodeAll(t).0
  {
    hide Decode, Encode;
    var (fs, left) := DecodeAll(s);
    EncodeAllDecodeAll(s);
    var more := left + t[|s|..];
    assert t == EncodeAll(fs) + more;
    DecodeAllEncodeAll(fs, more);
  }
}
