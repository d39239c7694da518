/** The objects of websocket.zig: a WebSocketClient writes to a socket, and a WebSocketState parses what
    arrives. Both are proved against WsWriting and WsSessions. */
module WebSockets {
  import opened Bytes
  import S = Stream
  import F = Framing
  import opened Sockets
  import opened WsParsing
  import opened WsWriting
  import opened WsSessions

  lemma {:induction false} DoAllAppend(s: S.Sock, a: seq<S.Call>, b: seq<S.Call>)
    requires S.Sound(s) && forall c :: c in a + b ==> c.Valid()
    ensures (forall c :: c in a ==> c.Valid()) && (forall c :: c in b ==> c.Valid())
    ensures S.DoAll(s, a + b) == S.DoAll(S.DoAll(s, a), b)
    decreases |a|
  {
    hide S.Do, S.Sound;
    assert forall c :: c in a || c in b ==> c in a + b;
    if a == [] {
      assert a + b == b;
    } else {
      assert (a + b)[0] == a[0] && (a + b)[1..] == a[1..] + b;
      DoAllAppend(S.Do(s, a[0]), a[1..], b);
    }
  }

  /** The socket after some calls. */
  ghost function After(s: S.Sock, calls: seq<S.Call>): S.Sock {
    if S.Sound(s) && forall c :: c in calls ==> c.Valid() then S.DoAll(s, calls) else s
  }

  lemma AfterAppend(s: S.Sock, a: seq<S.Call>, b: seq<S.Call>)
    requires (forall c :: c in a ==> c.Valid()) && (forall c :: c in b ==> c.Valid())
    ensures After(s, a + b) == After(After(s, a), b)
  {
    if S.Sound(s) {
      DoAllAppend(s, a, b);
    }
  }

  lemma AfterNone(s: S.Sock)
    ensures After(s, []) == s
  {
  }

  lemma DoAllMore(s: S.Sock, a: seq<S.Call>, c: S.Call)
    requires S.Sound(s) && c.Valid() && forall x :: x in a ==> x.Valid()
    ensures forall x :: x in a + [c] ==> x.Valid()
    ensures S.DoAll(s, a + [c]) == S.Do(S.DoAll(s, a), c)
  {
    DoAllAppend(s, a, [c]);
    assert [c][1..] == [];
  }

  /** std.mem.writeInt in network byte order */
  method WriteInt(a: array<byte>, at: nat, n: nat, k: nat)
    requires at + k <= a.Length
    modifies a
    ensures a[..] == old(a[..at]) + F.BigEndian(n, k) + old(a[at + k..])
  {
    var m, i := n, k;
    while i > 0
      invariant 0 <= i <= k
      invariant F.BigEndian(n, k) == F.BigEndian(m, i) + a[at + i..at + k]
      invariant a[..at + i] == old(a[..at + i]) && a[at + k..] == old(a[at + k..])
    {
      ghost var done := a[at + i..at + k];
      i := i - 1;
      a[at + i] := m % 256;
      m := m / 256;
      assert a[at + i..at + k] == [a[at + i]] + done;
    }
    assert a[..] == a[..at] + a[at..at + k] + a[at + k..];
  }

  /** payload_head: its bytes, and how many of them are to be sent */
  method FillHead(opcode: Opcode, total: nat) returns (mem: seq<byte>, size: nat)
    requires total <= MAX_TOTAL
    ensures mem == PayloadHead(opcode, total) && size == HeadSize(total)
  {
    var a := new byte[32](i => 0);
    a[0] := 128 + opcode;
    if total <= 125 {
      a[1] := total;
      size := 2;
    } else if total <= 65535 {
      a[1] := 126;
      WriteInt(a, 2, total, 2);
      size := 4;
    } else {
      a[1] := 127;
      WriteInt(a, 2, total, 8);
      size := 10;
    }
    mem := a[..];
  }

  /** The loop that computes data_len. */
  method SumLengths(datav: seq<Piece>) returns (total: nat)
    ensures total == Total(datav)
  {
    total := 0;
    var i := 0;
    assert datav[0..] == datav;
    while i < |datav|
      invariant 0 <= i <= |datav|
      invariant total + Total(datav[i..]) == Total(datav)
    {
      assert datav[i..][1..] == datav[i + 1..];
      total := total + datav[i].len;
      i := i + 1;
    }
  }

  class WebSocketClient {
    const socket: Socket
    var closed: bool

    ghost predicate Valid()
      reads socket, socket.jobs, socket.jobs.Repr, socket.ringRepr, socket.world
    {
      && this !in socket.Footprint() && socket.Valid() && S.Sound(socket.Abs())
    }

    /** The objects that make up the socket. */
    ghost function Objects(): set<object>
      reads socket, socket.jobs
    {
      {socket, socket.world} + socket.Footprint()
    }

    ghost function Sock(): S.Sock
      reads socket, socket.jobs, socket.jobs.Repr, socket.ringRepr, socket.world
      requires Valid()
    {
      socket.Abs()
    }

    constructor (socket: Socket)
      requires socket.Valid() && S.Sound(socket.Abs())
      ensures Valid() && this.socket == socket && !closed && Sock() == socket.Abs()
    {
      this.socket := socket;
      closed := false;
    }

    /** The socket is in this state. */
    ghost predicate Is(s: S.Sock)
      reads socket, socket.jobs, socket.jobs.Repr, socket.ringRepr, socket.world
    {
      Valid() && Sock() == s
    }

    /** Client.write in main.zig */
    method Emit(buf: S.Buf, len: nat, life: S.Lifetime, ghost s: S.Sock)
      requires Is(s) && S.CallWrite(buf, len, life).Valid()
      modifies Objects()
      ensures Is(After(s, [S.CallWrite(buf, len, life)])) && fresh(Objects() - old(Objects()))
    {
      DoAllMore(s, [], S.CallWrite(buf, len, life));
      assert [] + [S.CallWrite(buf, len, life)] == [S.CallWrite(buf, len, life)];
      hide Socket.Valid, Socket.Abs, S.Write, S.Sound;
      var _ := socket.Write(buf, len, life);
    }

    /** Client.close(.queue) in main.zig */
    method Finish(ghost s: S.Sock)
      requires Is(s)
      modifies Objects()
      ensures Is(After(s, [S.CallShutdown])) && fresh(Objects() - old(Objects()))
    {
      DoAllMore(s, [], S.CallShutdown);
      assert [] + [S.CallShutdown] == [S.CallShutdown];
      hide Socket.Valid, Socket.Abs, S.ShutdownQueued, S.Sound;
      socket.ShutdownQueued();
    }

    lemma SockSound()
      requires Valid()
      ensures S.Sound(Sock())
    {
    }

    lemma SockApart()
      requires Valid()
      ensures this !in Objects()
    {
    }

    /** The loop that writes the pieces of the payload. */
    method WritePieces(datav: seq<Piece>, ghost s: S.Sock)
      requires Is(s) && AllPieces(datav)
      modifies Objects()
      ensures Is(After(s, PieceCalls(datav))) && fresh(Objects() - old(Objects()))
    {
      PiecesOffered(datav);
      AfterNone(s);
      hide Is, Objects, After;
      ghost var calls := PieceCalls(datav);
      var i := 0;
      assert calls[..0] == [];
      while i < |datav|
        invariant 0 <= i <= |datav|
        invariant Is(After(s, calls[..i])) && fresh(Objects() - old(Objects()))
      {
        PieceStep(s, datav, i);
        Emit(datav[i].buf, datav[i].len, datav[i].life, After(s, calls[..i]));
        i := i + 1;
      }
      assert calls[..i] == calls;
    }

    /** The branches of writev that write the header. */
    method WriteHead(opcode: Opcode, total: nat, ghost s: S.Sock)
      requires Is(s)
      modifies Objects()
      ensures Is(After(s, HeadCalls(opcode, total))) && fresh(Objects() - old(Objects()))
    {
      AfterNone(s);
      hide Is, After, PayloadHead;
      if total <= MAX_TOTAL {
        var mem, size := FillHead(opcode, total);
        Emit(S.Buf(HEAD, mem), size, S.Copy, s);
      }
    }

    /** The rest of writev, for a connection that is not closed. */
    method WriteFrame(opcode: Opcode, datav: seq<Piece>, ghost s: S.Sock)
      requires Is(s) && AllPieces(datav)
      modifies Objects()
      ensures Is(After(s, WritevCalls(opcode, datav))) && fresh(Objects() - old(Objects()))
    {
      FrameParts(s, opcode, datav);
      hide *;
      var total := SumLengths(datav);
      WriteHead(opcode, total, s);
      if total != 0 {
        WritePieces(datav, After(s, HeadCalls(opcode, total)));
      }
    }

    method Writev(opcode: Opcode, datav: seq<Piece>)
      requires Valid() && AllPieces(datav)
      modifies Objects()
      ensures Valid() && fresh(Objects() - old(Objects()))
      ensures Did(old(Sock()), closed, WsCall.Writev(opcode, datav), Sock())
    {
      if closed {
        Ignored(Sock(), WsCall.Writev(opcode, datav));
        return;
      }
      FrameOffered(opcode, datav);
      ghost var s := Sock();
      hide Valid, Sock, WritevCalls;
      WriteFrame(opcode, datav, s);
    }

    /** ping */
    method SendPing(data: S.Buf, len: nat)
      requires Valid() && Ping(data, len).Valid()
      modifies Objects()
      ensures Valid() && fresh(Objects() - old(Objects()))
      ensures Did(old(Sock()), closed, Ping(data, len), Sock())
    {
      if closed {
        return;
      }
      Writev(PING, [Piece(data, len, S.Copy)]);
    }

    /** pong */
    method SendPong(data: S.Buf, len: nat)
      requires Valid() && Pong(data, len).Valid()
      modifies Objects()
      ensures Valid() && fresh(Objects() - old(Objects()))
      ensures Did(old(Sock()), closed, Pong(data, len), Sock())
    {
      if closed {
        return;
      }
      Writev(PONG, [Piece(data, len, S.Copy)]);
    }

    /** close: the write comes after `closed` is set and does nothing. */
    method ShutDown()
      requires Valid()
      modifies this`closed, Objects()
      ensures Valid() && fresh(Objects() - old(Objects()))
      ensures closed && Did(old(Sock()), old(closed), Close, Sock())
    {
      if closed {
        Ignored(Sock(), Close);
        return;
      }
      ghost var s := Sock();
      SockSound();
      hide Valid, Sock, S.DoAll;
      ShutDownOpen(s);
    }

    /** Any of the calls above. */
    method Perform(c: WsCall)
      requires Valid() && c.Valid()
      modifies this`closed, Objects()
      ensures Valid() && fresh(Objects() - old(Objects()))
      ensures closed == WsWriting.Perform(old(closed), c).0 && Did(old(Sock()), old(closed), c, Sock())
    {
      SockApart();
      hide Valid, Sock, Objects, Did;
      match c
      case Writev(opcode, datav) => Writev(opcode, datav);
      case Ping(data, len) => SendPing(data, len);
      case Pong(data, len) => SendPong(data, len);
      case Close => ShutDown();
    }

    /** A callback: its calls, one after the other. */
    method PerformAll(cs: seq<WsCall>)
      requires Valid() && AllCallsValid(cs)
      modifies this`closed, Objects()
      ensures Valid() && fresh(Objects() - old(Objects()))
      ensures var (c, calls) := WsWriting.PerformAll(old(closed), cs);
        closed == c && Made(old(Sock()), calls, Sock())
    {
      hide Valid, Sock, Made, S.Sound, WsWriting.Perform;
      SockSound();
      ghost var s, all := Sock(), WsWriting.PerformAll(closed, cs);
      ghost var done: seq<S.Call> := [];
      MadeNone(s);
      var i := 0;
      assert cs[0..] == cs && [] + all.1 == all.1;
      while i < |cs|
        invariant 0 <= i <= |cs|
        invariant Valid() && fresh(Objects() - old(Objects()))
        invariant Made(s, done, Sock())
        invariant var (c, calls) := WsWriting.PerformAll(closed, cs[i..]); all == (c, done + calls)
      {
        assert cs[i] in cs && cs[i..][0] == cs[i] && cs[i..][1..] == cs[i + 1..];
        SockSound();
        ghost var t, more := Sock(), WsWriting.Perform(closed, cs[i]).1;
        ghost var rest := WsWriting.PerformAll(WsWriting.Perform(closed, cs[i]).0, cs[i + 1..]).1;
        Perform(cs[i]);
        MadeTrans(s, done, t, more, Sock());
        assert done + (more + rest) == done + more + rest;
        done := done + more;
        i := i + 1;
      }
      assert done + [] == done;
    }

    /** The write of close(), which does nothing any more. */
    method WriteClosed(ghost s: S.Sock)
      requires Is(s) && closed
      modifies Objects()
      ensures Is(s) && fresh(Objects() - old(Objects()))
    {
      Writev(CLOSE, []);
    }

    method ShutDownOpen(ghost s: S.Sock)
      requires Is(s) && !closed
      modifies this`closed, Objects()
      ensures Is(After(s, [S.CallShutdown])) && fresh(Objects() - old(Objects())) && closed
    {
      SockApart();
      hide *;
      closed := true;
      WriteClosed(s);
      Finish(s);
    }
  }

  /** One more piece. */
  lemma PieceStep(s: S.Sock, datav: seq<Piece>, i: nat)
    requires AllPieces(datav) && i < |datav|
    ensures var calls, c := PieceCalls(datav), S.CallWrite(datav[i].buf, datav[i].len, datav[i].life);
      c.Valid() && After(s, calls[..i + 1]) == After(After(s, calls[..i]), [c])
  {
    PiecesOffered(datav);
    var calls := PieceCalls(datav);
    assert datav[i] in datav;
    assert calls[..i + 1] == calls[..i] + [calls[i]];
    forall c | c in calls[..i]
      ensures c.Valid()
    {
      assert c in calls;
    }
    AfterAppend(s, calls[..i], [calls[i]]);
  }

  lemma FrameParts(s: S.Sock, opcode: Opcode, datav: seq<Piece>)
    requires AllPieces(datav)
    ensures var head, total := HeadCalls(opcode, Total(datav)), Total(datav);
      After(s, WritevCalls(opcode, datav)) ==
        if total == 0 then After(s, head) else After(After(s, head), PieceCalls(datav))
  {
    var head := HeadCalls(opcode, Total(datav));
    PiecesOffered(datav);
    if Total(datav) == 0 {
      assert head + [] == head;
    } else {
      AfterAppend(s, head, PieceCalls(datav));
    }
  }

  lemma Ignored(s: S.Sock, c: WsCall)
    requires S.Sound(s)
    ensures Did(s, true, c, s)
  {
  }

  /** The socket t is what these calls make of s. */
  ghost predicate Made(s: S.Sock, calls: seq<S.Call>, t: S.Sock)
    requires S.Sound(s)
  {
    (forall x :: x in calls ==> x.Valid()) && t == S.DoAll(s, calls)
  }

  /** The socket t is what the call makes of s. */
  ghost predicate Did(s: S.Sock, closed: bool, c: WsCall, t: S.Sock)
    requires S.Sound(s)
  {
    Made(s, Perform(closed, c).1, t)
  }

  lemma MadeTrans(s: S.Sock, a: seq<S.Call>, t: S.Sock, b: seq<S.Call>, u: S.Sock)
    requires S.Sound(s) && S.Sound(t) && Made(s, a, t) && Made(t, b, u)
    ensures Made(s, a + b, u)
  {
    DoAllAppend(s, a, b);
  }

  lemma MadeNone(s: S.Sock)
    requires S.Sound(s)
    ensures Made(s, [], s)
  {
  }
}
