/** The writing side of websocket.zig, as the calls it makes on the socket. */
module WsWriting {
  import opened Options
  import opened Bytes
  import S = Stream
  import F = Framing

  type Opcode = n: nat | n < 16

  const CLOSE: Opcode := 8
  const PING: Opcode := 9
  const PONG: Opcode := 10

  /** Frames up to this length get a header. */
  const MAX_TOTAL: nat := 0xFFFFFFFF

  /** WebSocketData */
  datatype Piece = Piece(buf: S.Buf, len: nat, life: S.Lifetime) {
    predicate Valid() {
      buf.id.User? && len <= |buf.mem|
    }

    function Bytes(): seq<byte>
      requires Valid()
    {
      buf.mem[..len]
    }
  }

  predicate AllPieces(datav: seq<Piece>) {
    forall d :: d in datav ==> d.Valid()
  }

  /** data_len */
  function Total(datav: seq<Piece>): nat {
    if datav == [] then 0 else datav[0].len + Total(datav[1..])
  }

  function Joined(datav: seq<Piece>): (r: seq<byte>)
    requires AllPieces(datav)
    ensures |r| == Total(datav)
  {
    if datav == [] then [] else datav[0].Bytes() + Joined(datav[1..])
  }

  /** The shortest form of the length, which section 5.2 of RFC 6455 asks for. */
  function FormFor(n: nat): F.Form {
    if n <= 125 then F.Short else if n <= 65535 then F.Medium else F.Long
  }

  /** The frame a server sends: final and unmasked. */
  function FrameOf(opcode: Opcode, payload: seq<byte>): (f: F.Frame)
    ensures |payload| <= MAX_TOTAL ==> f.Valid()
  {
    F.PowValues();
    F.Frame(128 + opcode, FormFor(|payload|), None, payload)
  }

  /** The 32 bytes of payload_head once it is filled in. */
  function PayloadHead(opcode: Opcode, total: nat): (r: seq<byte>)
    requires total <= MAX_TOTAL
    ensures |r| == 32
  {
    var w := FormFor(total).Width();
    [128 + opcode, if w == 0 then total else if w == 2 then 126 else 127]
    + F.BigEndian(total, w) + seq(30 - w, i => 0)
  }

  function HeadSize(total: nat): nat {
    2 + FormFor(total).Width()
  }

  /** The stack buffer of the header, and the buffer of the parser, which pong is given. */
  const HEAD := S.User(0)
  const PAYLOAD := S.User(1)

  function HeadCalls(opcode: Opcode, total: nat): seq<S.Call> {
    if total <= MAX_TOTAL then [S.CallWrite(S.Buf(HEAD, PayloadHead(opcode, total)), HeadSize(total), S.Copy)] else []
  }

  function PieceCalls(datav: seq<Piece>): (r: seq<S.Call>)
    ensures |r| == |datav|
    ensures forall i :: 0 <= i < |r| ==> r[i] == S.CallWrite(datav[i].buf, datav[i].len, datav[i].life)
  {
    seq(|datav|, i requires 0 <= i < |datav| => S.CallWrite(datav[i].buf, datav[i].len, datav[i].life))
  }

  /** The calls writev makes while the connection is not closed. */
  function WritevCalls(opcode: Opcode, datav: seq<Piece>): seq<S.Call> {
    var total := Total(datav);
    HeadCalls(opcode, total) + if total != 0 then PieceCalls(datav) else []
  }

  /** What a callback may do with the connection. */
  datatype WsCall =
    | Writev(opcode: Opcode, datav: seq<Piece>)
    | Ping(data: S.Buf, len: nat)
    | Pong(data: S.Buf, len: nat)
    | Close
  {
    predicate Valid() {
      match this
      case Writev(_, datav) => AllPieces(datav)
      case Ping(data, len) => Piece(data, len, S.Copy).Valid()
      case Pong(data, len) => Piece(data, len, S.Copy).Valid()
      case Close => true
    }

    /** What is to be sent: the opcode and the pieces of the payload. */
    function Content(): (Opcode, seq<Piece>)
      requires !Close?
    {
      match this
      case Writev(opcode, datav) => (opcode, datav)
      case Ping(data, len) => (PING, [Piece(data, len, S.Copy)])
      case Pong(data, len) => (PONG, [Piece(data, len, S.Copy)])
    }

    function Payload(): seq<byte>
      requires Valid() && !Close?
    {
      Joined(Content().1)
    }
  }

  predicate AllCallsValid(cs: seq<WsCall>) {
    forall c :: c in cs ==> c.Valid()
  }

  /** What a caller wants to have sent: the opcode of section 5.2 of RFC 6455 and the payload. */
  function Said(c: WsCall): (Opcode, seq<byte>)
    requires c.Valid() && !c.Close?
  {
    match c
    case Writev(opcode, datav) => (opcode, Joined(datav))
    case Ping(data, len) => (9, data.mem[..len])
    case Pong(data, len) => (10, data.mem[..len])
  }

  lemma SaidIsContent(c: WsCall)
    requires c.Valid() && !c.Close?
    ensures Said(c) == (c.Content().0, c.Payload())
    ensures |Said(c).1| == Total(c.Content().1)
  {
    if !c.Writev? {
      var datav := c.Content().1;
      assert datav[1..] == [] && datav[0].Bytes() + [] == datav[0].Bytes();
    }
  }

  /** The calls made on the socket, and whether the connection is closed afterwards. close() sets
      `closed` before it writes, so that its close frame is never sent. */
  function Perform(closed: bool, c: WsCall): (bool, seq<S.Call>) {
    if closed then (true, [])
    else if c.Close? then (true, [S.CallShutdown])
    else (false, WritevCalls(c.Content().0, c.Content().1))
  }

  function PerformAll(closed: bool, cs: seq<WsCall>): (bool, seq<S.Call>)
    decreases |cs|
  {
    if cs == [] then (closed, [])
    else
      var (c1, calls) := Perform(closed, cs[0]);
      var (c2, more) := PerformAll(c1, cs[1..]);
      (c2, calls + more)
  }

  lemma {:induction false} PerformAppend(closed: bool, a: seq<WsCall>, b: seq<WsCall>)
    ensures var (c1, calls) := PerformAll(closed, a);
      PerformAll(closed, a + b) == (PerformAll(c1, b).0, calls + PerformAll(c1, b).1)
    decreases |a|
  {
    hide Perform;
    if a == [] {
      assert a + b == b && [] + PerformAll(closed, b).1 == PerformAll(closed, b).1;
    } else {
      assert (a + b)[0] == a[0] && (a + b)[1..] == a[1..] + b;
      var (c0, calls) := Perform(closed, a[0]);
      PerformAppend(c0, a[1..], b);
      var (c1, more) := PerformAll(c0, a[1..]);
      var tail := PerformAll(c1, b).1;
      assert calls + (more + tail) == calls + more + tail;
    }
  }

  lemma {:induction false} PiecesOffered(datav: seq<Piece>)
    requires AllPieces(datav)
    ensures (forall c :: c in PieceCalls(datav) ==> c.Valid()) && S.Offered(PieceCalls(datav)) == Joined(datav)
  {
    if datav != [] {
      assert datav[0] in datav && forall d :: d in datav[1..] ==> d in datav;
      PiecesOffered(datav[1..]);
      assert PieceCalls(datav)[1..] == PieceCalls(datav[1..]);
      forall c | c in PieceCalls(datav)
        ensures c.Valid()
      {
        assert c == PieceCalls(datav)[0] || c in PieceCalls(datav)[1..];
      }
    }
  }

  lemma HeadOffered(opcode: Opcode, payload: seq<byte>)
    requires |payload| <= MAX_TOTAL
    ensures var head := PayloadHead(opcode, |payload|);
      head[..HeadSize(|payload|)] == F.Lead(FrameOf(opcode, payload))
  {
  }

  /** No frame with this payload has a shorter form of the length. */
  lemma ShortestForm(f: F.Frame)
    requires f.Valid()
    ensures FormFor(|f.payload|).Width() <= f.form.Width()
  {
    F.PowValues();
  }

  /** The one frame that section 5 of RFC 6455 lets a server send for an opcode and a payload: final,
      unmasked and with the length in the fewest octets. */
  ghost predicate Served(f: F.Frame, opcode: Opcode, payload: seq<byte>) {
    && f.Valid() && f.head == 0x80 + opcode && f.mask == None && f.payload == payload
    && forall g: F.Frame :: g.Valid() && g.payload == payload ==> f.form.Width() <= g.form.Width()
  }

  lemma ServedExact(f: F.Frame, opcode: Opcode, payload: seq<byte>)
    requires |payload| <= 0xFFFF_FFFF
    ensures Served(f, opcode, payload) <==> f == FrameOf(opcode, payload)
  {
    var best := FrameOf(opcode, payload);
    forall g: F.Frame | g.Valid() && g.payload == payload
      ensures best.form.Width() <= g.form.Width()
    {
      ShortestForm(g);
    }
    if Served(f, opcode, payload) {
      assert f.form.Width() <= best.form.Width();
    }
  }

  /** writev asks to send exactly the one frame that carries the pieces of the payload, and it does so if
      and only if their total fits in 32 bits: beyond that there is no header at all. */
  lemma WritevOffers(opcode: Opcode, datav: seq<Piece>, f: F.Frame)
    requires AllPieces(datav) && Served(f, opcode, Joined(datav))
    ensures (forall c :: c in WritevCalls(opcode, datav) ==> c.Valid())
    ensures S.Offered(WritevCalls(opcode, datav)) == F.Encode(f) <==> |Joined(datav)| <= 0xFFFF_FFFF
  {
    if |Joined(datav)| <= 0xFFFF_FFFF {
      ServedExact(f, opcode, Joined(datav));
    }
    FrameOffered(opcode, datav);
  }

  lemma FrameOffered(opcode: Opcode, datav: seq<Piece>)
    requires AllPieces(datav)
    ensures (forall c :: c in WritevCalls(opcode, datav) ==> c.Valid())
    ensures Total(datav) <= MAX_TOTAL ==>
      S.Offered(WritevCalls(opcode, datav)) == F.Encode(FrameOf(opcode, Joined(datav)))
    ensures Total(datav) > MAX_TOTAL ==> S.Offered(WritevCalls(opcode, datav)) == Joined(datav)
  {
    var total, payload := Total(datav), Joined(datav);
    var head := HeadCalls(opcode, total);
    var pieces := if total != 0 then PieceCalls(datav) else [];
    PiecesOffered(datav);
    S.OfferedAppend(head, pieces);
    assert total == 0 ==> payload == [];
    if total <= MAX_TOTAL {
      HeadOffered(opcode, payload);
      assert head[1..] == [];
      assert S.Offered(head) == F.Lead(FrameOf(opcode, payload)) + [];
    } else {
      assert S.Offered(head) == [];
    }
  }

  /** The frames of a sequence of calls: those before the first close. */
  function FramesOf(cs: seq<WsCall>): (r: seq<F.Frame>)
    requires AllCallsValid(cs)
  {
    if cs == [] || cs[0].Close? then []
    else
      assert cs[0] in cs && AllCallsValid(cs[1..]);
      [FrameOf(cs[0].Content().0, cs[0].Payload())] + FramesOf(cs[1..])
  }

  /** Every payload fits in 32 bits. */
  predicate Fitting(cs: seq<WsCall>)
    requires AllCallsValid(cs)
  {
    forall c :: c in cs && !c.Close? ==> |Said(c).1| <= 0xFFFF_FFFF
  }

  lemma {:induction false} ClosedIsSilent(cs: seq<WsCall>)
    ensures PerformAll(true, cs) == (true, [])
  {
    if cs != [] {
      ClosedIsSilent(cs[1..]);
      var none: seq<S.Call> := Perform(true, cs[0]).1;
      assert PerformAll(true, cs).1 == none + [] == [];
    }
  }

  /** fs are the frames of the calls before the first close. */
  ghost predicate Framed(cs: seq<WsCall>, fs: seq<F.Frame>)
    requires AllCallsValid(cs)
  {
    if cs == [] || cs[0].Close? then fs == []
    else
      assert cs[0] in cs && AllCallsValid(cs[1..]);
      fs != [] && Served(fs[0], Said(cs[0]).0, Said(cs[0]).1) && Framed(cs[1..], fs[1..])
  }

  lemma {:induction false} FramedExact(cs: seq<WsCall>, fs: seq<F.Frame>)
    requires AllCallsValid(cs) && Fitting(cs)
    ensures Framed(cs, fs) <==> fs == FramesOf(cs)
  {
    hide Served, FrameOf;
    if cs != [] && !cs[0].Close? {
      assert cs[0] in cs && AllCallsValid(cs[1..]) && Fitting(cs[1..]);
      SaidIsContent(cs[0]);
      if fs != [] {
        ServedExact(fs[0], Said(cs[0]).0, Said(cs[0]).1);
        FramedExact(cs[1..], fs[1..]);
        assert fs == [fs[0]] + fs[1..];
      }
    }
  }

  /** Any sequence of calls asks to send exactly the frames of those before the first close. */
  lemma CallsOffer(cs: seq<WsCall>, fs: seq<F.Frame>)
    requires AllCallsValid(cs) && Fitting(cs) && Framed(cs, fs)
    ensures F.AllValid(fs)
    ensures var calls := PerformAll(false, cs).1;
      (forall c :: c in calls ==> c.Valid()) && S.Offered(calls) == F.EncodeAll(fs)
  {
    FramedExact(cs, fs);
    FramesOffered(cs);
  }

  lemma {:induction false} FramesOffered(cs: seq<WsCall>)
    requires AllCallsValid(cs) && Fitting(cs)
    ensures F.AllValid(FramesOf(cs))
    ensures var calls := PerformAll(false, cs).1;
      (forall c :: c in calls ==> c.Valid()) && S.Offered(calls) == F.EncodeAll(FramesOf(cs))
  {
    hide WritevCalls, F.Encode, FrameOf;
    if cs != [] {
      var c, rest := cs[0], cs[1..];
      assert c in cs && forall d :: d in rest ==> d in cs;
      var (closed, calls) := Perform(false, c);
      var more := PerformAll(closed, rest).1;
      if c.Close? {
        ClosedIsSilent(rest);
        assert calls + more == [S.CallShutdown] && [S.CallShutdown][1..] == [];
      } else {
        FramesOffered(rest);
        SaidIsContent(c);
        FrameOffered(c.Content().0, c.Content().1);
        S.OfferedAppend(calls, more);
        var f := FrameOf(c.Content().0, c.Payload());
        assert f.Valid() && F.AllValid(FramesOf(rest));
        assert FramesOf(cs) == [f] + FramesOf(rest);
        assert ([f] + FramesOf(rest))[1..] == FramesOf(rest);
      }
    }
  }
}
