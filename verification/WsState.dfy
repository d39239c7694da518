/** WebSocketState of websocket.zig: the parser that works on its fields byte by byte and drives the
    client, proved against WsParsing and WsSessions. */
module WsStates {
  import opened Options
  import opened Bytes
  import S = Stream
  import F = Framing
  import opened WsParsing
  import opened WsWriting
  import opened WsSessions
  import opened WebSockets

  type u2 = n: nat | n < 4
  type u3 = n: nat | n < 8
  type u16 = n: nat | n < 0x1_0000
  type u64 = n: nat | n < 0x1_0000_0000_0000_0000

  class WebSocketState {
    const client: WebSocketClient
    var buffer: seq<byte>
    var length: u64        // frame.length
    var header: byte       // frame.header
    var lengthPos: u3      // frame.length_pos
    const prevheader: byte := 0 // frame.prevheader, which is never assigned
    const key: array<byte> // cipher.key
    var pos: u2            // cipher.pos
    var inKey: u2          // data_inkey
    var masking: bool
    var step: Step
    /** What on_message is going to do, what it has been given, and what lies behind the buffer. */
    var replies: seq<seq<WsCall>>
    var delivered: seq<Delivery>
    const slack: seq<byte>

    /** The fields of the parser. */
    ghost function Fields(): Parser
      reads this, key
      requires key.Length == 4
    {
      Parser(step, length, header, lengthPos, key[..], pos, inKey, masking, buffer)
    }

    ghost predicate ParserOk()
      reads this, key
    {
      key.Length == 4 && Safe(Fields())
    }

    /** init */
    constructor (client: WebSocketClient, replies: seq<seq<WsCall>>, slack: seq<byte>)
      ensures ParserOk() && Fields() == NEW_PARSER && fresh(key)
      ensures this.client == client && this.replies == replies && this.slack == slack && delivered == []
    {
      this.client := client;
      key := new byte[4](i => 0);
      buffer := [];
      length, header, lengthPos, pos, inKey, masking, step := 0, 0, 0, 0, 0, false, StepStart;
      this.replies, delivered, this.slack := replies, [], slack;
      new;
      assert key[..] == F.ZERO_KEY;
    }

    /** Whether the byte has completed a frame, so that end_message is to be called. */
    ghost predicate Parsed(p: Parser, b: byte, done: bool)
      reads this, key
      requires Safe(p)
    {
      && key.Length == 4
      && Feed(p, b) == if done then End(Fields()) else (Fields(), None)
    }

    method ReadStart(b: byte)
      requires ParserOk() && step == StepStart
      modifies this`header, this`step, this`inKey, this`pos, this`lengthPos, this`length, this`buffer
      ensures Parsed(old(Fields()), b, false)
    {
      header := b;
      step := StepLength;
      inKey := 0;
      pos := 0;
      lengthPos := 0;
      length := 0;
      buffer := [];
    }

    method ReadSecond(b: byte) returns (done: bool)
      requires ParserOk() && step == StepLength
      modifies this`masking, this`step, this`length
      ensures Parsed(old(Fields()), b, done)
    {
      masking := b >= 128;
      match b % 128 {
        case 126 => step := StepShortLength;
        case 127 => step := StepExtendedLength;
        case _ =>
          length := b % 128;
          step := if masking then StepKey else StepData;
      }
      done := !masking && length == 0;
    }

    /** The bytes of the length collected so far and one more, which fit in 64 bits. */
    lemma LengthFits(b: byte)
      requires ParserOk() && (step == StepShortLength || step == StepExtendedLength)
      ensures OrBits(length, b * F.Pow256(lengthPos)) < 0x1_0000_0000_0000_0000
      ensures step == StepShortLength ==> OrBits(length, b * F.Pow256(lengthPos)) < 0x1_0000
    {
      OrIsPlus(length, b, lengthPos);
      BelowNext(length, b, lengthPos);
      F.PowValues();
      PowGrows(lengthPos + 1, if step == StepShortLength then 2 else 8);
    }

    method ReadLength(b: byte)
      requires ParserOk() && (step == StepShortLength || step == StepExtendedLength)
      modifies this`step, this`length, this`lengthPos
      ensures Parsed(old(Fields()), b, false)
    {
      LengthFits(b);
      F.PowValues();
      var done := false;
      if step == StepShortLength {
        length := OrBits(length, b * F.Pow256(lengthPos));
        if lengthPos == 1 {
          var n: u16 := length;
          length := ByteSwap(n, 2);
          done := true;
        }
      } else {
        length := OrBits(length, b * F.Pow256(lengthPos));
        if lengthPos == 7 {
          length := ByteSwap(length, 8);
          done := true;
        }
      }
      if done {
        step := if masking then StepKey else StepData;
      } else {
        lengthPos := lengthPos + 1;
      }
    }

    method ReadKey(b: byte) returns (done: bool)
      requires ParserOk() && step == StepKey
      modifies this`step, this`pos, key
      ensures Parsed(old(Fields()), b, done)
    {
      key[pos] := b;
      if pos == 3 {
        step := StepData;
        return length == 0;
      }
      pos := pos + 1;
      done := false;
    }

    method ReadData(b: byte) returns (done: bool)
      requires ParserOk() && step == StepData
      modifies this`buffer, this`inKey
      ensures Parsed(old(Fields()), b, done)
    {
      var decoded := F.Xor(b, key[inKey]);
      buffer := buffer + [decoded];
      if |buffer| == length {
        return true;
      }
      inKey := (inKey + 1) % 4;
      done := false;
    }

    /** The switch over the parsing steps. */
    method ReadByte(b: byte) returns (done: bool)
      requires ParserOk()
      modifies this`buffer, this`length, this`header, this`lengthPos, this`pos, this`inKey, this`masking, this`step, key
      ensures Parsed(old(Fields()), b, done)
    {
      done := false;
      match step
      case StepStart => ReadStart(b);
      case StepLength => done := ReadSecond(b);
      case StepShortLength => ReadLength(b);
      case StepExtendedLength => ReadLength(b);
      case StepKey => done := ReadKey(b);
      case StepData => done := ReadData(b);
    }

    /** The client and the callback can be used. */
    ghost predicate ClientOk()
      reads this, client.socket, client.socket.jobs, client.socket.jobs.Repr, client.socket.ringRepr
      reads client.socket.world
    {
      && client.Valid()
      && this !in client.Objects() && key !in client.Objects() && client !in client.Objects()
      && forall r :: r in replies ==> AllCallsValid(r)
    }

    ghost function Abs(): Session
      reads this, key, client
      requires key.Length == 4
    {
      Session(Fields(), client.closed, replies, slack, delivered)
    }

    /** What is left when the message m has been dealt with. */
    ghost predicate Reacted(s: Session, m: Message, k: S.Sock)
      reads this, key, client, client.socket, client.socket.jobs, client.socket.jobs.Repr, client.socket.ringRepr,
        client.socket.world
      requires s.Valid() && S.Sound(k)
    {
      && key.Length == 4 && ClientOk()
      && var (t, calls) := React(s, m);
         Abs() == t && Made(k, calls, client.Sock())
    }

    /** The branch of end_message that calls on_message. */
    method OnMessage()
      requires ParserOk() && ClientOk() && step == StepStart && header % 16 <= 2
      modifies this`replies, this`delivered, client`closed, client.Objects()
      ensures ParserOk() && fresh(client.Objects() - old(client.Objects()))
      ensures Reacted(old(Abs()), Message(header, buffer), old(client.Sock()))
    {
      hide WebSocketClient.Valid, WebSocketClient.Sock, Safe, Made, S.Sound;
      client.SockSound();
      MadeNone(client.Sock());
      var opcode := header % 16;
      var isBinary := opcode == 2 || (opcode == 0 && prevheader % 16 == 2);
      var state := if header / 16 == 8 then FrameFinish else if opcode == 0 then FrameContinue else FrameStart;
      delivered := delivered + [Delivery(buffer, isBinary, state)];
      if replies != [] {
        var calls := replies[0];
        replies := replies[1..];
        client.PerformAll(calls);
      }
    }

    /** end_message and reset_state. The step is reset first here; the calls in between do not look at it. */
    method EndMessage()
      requires ParserOk() && ClientOk() && step == StepStart
      modifies this`replies, this`delivered, client`closed, client.Objects()
      ensures ParserOk() && fresh(client.Objects() - old(client.Objects()))
      ensures Reacted(old(Abs()), Message(header, buffer), old(client.Sock()))
    {
      hide WebSocketClient.Valid, WebSocketClient.Sock, Safe, Made, S.Sound, WsWriting.Perform;
      client.SockSound();
      var opcode := header % 16;
      if opcode <= 2 {
        OnMessage();
      } else if opcode == CLOSE {
        PerformOne(client.closed, Close);
        client.Perform(Close);
      } else if opcode == PING {
        var data := S.Buf(PAYLOAD, buffer + slack);
        PerformOne(client.closed, Pong(data, |buffer|));
        client.Perform(Pong(data, |buffer|));
      } else {
        MadeNone(client.Sock());
      }
    }

    /** What is left when the byte b has been dealt with. */
    ghost predicate Received(s: Session, b: byte, k: S.Sock)
      reads this, key, client, client.socket, client.socket.jobs, client.socket.jobs.Repr, client.socket.ringRepr,
        client.socket.world
      requires s.Valid() && S.Sound(k)
    {
      && ParserOk() && ClientOk()
      && var (t, calls) := ReceiveByte(s, b);
         Abs() == t && Made(k, calls, client.Sock())
    }

    /** One round of the loop of process_data. */
    method ProcessByte(b: byte)
      requires ParserOk() && ClientOk()
      modifies this, key, client`closed, client.Objects()
      ensures Received(old(Abs()), b, old(client.Sock())) && fresh(client.Objects() - old(client.Objects()))
    {
      hide WebSocketClient.Valid, WebSocketClient.Sock, Made, S.Sound, Feed, React;
      client.SockSound();
      ParserSafe(Fields(), b);
      MadeNone(client.Sock());
      var done := ReadByte(b);
      if done {
        step := StepStart;
        EndMessage();
      }
    }

    /** process_data */
    method ProcessData(data: seq<byte>)
      requires ParserOk() && ClientOk()
      modifies this, key, client`closed, client.Objects()
      ensures ParserOk() && ClientOk() && fresh(client.Objects() - old(client.Objects()))
      ensures Abs() == Receive(old(Abs()), data).0
      ensures Made(old(client.Sock()), Receive(old(Abs()), data).1, client.Sock())
    {
      hide WebSocketClient.Valid, WebSocketClient.Sock, Made, S.Sound, Safe, ReceiveByte;
      client.SockSound();
      ghost var k, all := client.Sock(), Receive(Abs(), data);
      ghost var done: seq<S.Call> := [];
      MadeNone(k);
      var i := 0;
      assert data[0..] == data && [] + all.1 == all.1;
      while i < |data|
        invariant 0 <= i <= |data|
        invariant ParserOk() && ClientOk() && fresh(client.Objects() - old(client.Objects()))
        invariant Made(k, done, client.Sock())
        invariant var (t, calls) := Receive(Abs(), data[i..]); all == (t, done + calls)
      {
        assert data[i..][0] == data[i] && data[i..][1..] == data[i + 1..];
        client.SockSound();
        ghost var t, more := client.Sock(), ReceiveByte(Abs(), data[i]).1;
        ghost var rest := Receive(ReceiveByte(Abs(), data[i]).0, data[i + 1..]).1;
        ProcessByte(data[i]);
        client.SockSound();
        MadeTrans(k, done, t, more, client.Sock());
        assert done + (more + rest) == done + more + rest;
        done := done + more;
        i := i + 1;
      }
      assert done + [] == done;
    }
  }

  lemma {:induction false} PowGrows(a: nat, b: nat)
    requires a <= b
    ensures F.Pow256(a) <= F.Pow256(b)
  {
    if a < b {
      PowGrows(a, b - 1);
    }
  }

  lemma PerformOne(closed: bool, c: WsCall)
    ensures PerformAll(closed, [c]) == Perform(closed, c)
  {
    assert [c][1..] == [];
    assert Perform(closed, c).1 + [] == Perform(closed, c).1;
  }
}
