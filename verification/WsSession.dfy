/** The two sides of websocket.zig together: what a server connection answers to what it receives. */
module WsSessions {
  import opened Options
  import opened Bytes
  import S = Stream
  import F = Framing
  import opened WsParsing
  import opened WsWriting

  datatype FrameState = FrameStart | FrameContinue | FrameFinish

  /** A call of on_message. */
  datatype Delivery = Delivery(data: seq<byte>, isBinary: bool, state: FrameState)

  /** replies are the calls that the coming rounds of on_message make, slack what lies in memory behind
      the parser's buffer, and delivered the messages handed to on_message. */
  datatype Session = Session(
    parser: Parser, closed: bool, replies: seq<seq<WsCall>>, slack: seq<byte>, delivered: seq<Delivery>)
  {
    predicate Valid() {
      Safe(parser) && forall r :: r in replies ==> AllCallsValid(r)
    }
  }

  /** The arguments of on_message. frame.prevheader is never assigned, so that a continuation frame
      never counts as binary. */
  function DeliveryOf(m: Message): Delivery {
    Delivery(m.payload, m.head % 16 == 2,
      if m.head / 16 == 8 then FrameFinish else if m.head % 16 == 0 then FrameContinue else FrameStart)
  }

  predicate IsData(m: Message) {
    m.head % 16 <= 2
  }

  /** What end_message does: the calls on the connection that it or on_message makes. */
  function Reaction(s: Session, m: Message): (r: (Session, seq<WsCall>))
    requires s.Valid()
    ensures r.0.Valid() && AllCallsValid(r.1) && r.0.parser == s.parser && r.0.closed == s.closed
  {
    if IsData(m) then
      var s' := s.(delivered := s.delivered + [DeliveryOf(m)]);
      if s.replies == [] then (s', []) else (s'.(replies := s.replies[1..]), s.replies[0])
    else if m.head % 16 == CLOSE then (s, [Close])
    else if m.head % 16 == PING then (s, [Pong(S.Buf(PAYLOAD, m.payload + s.slack), |m.payload|)])
    else (s, [])
  }

  function React(s: Session, m: Message): (r: (Session, seq<S.Call>))
    requires s.Valid()
    ensures r.0.Valid() && r.0.parser == s.parser
  {
    var (t, cs) := Reaction(s, m);
    var (closed, calls) := PerformAll(t.closed, cs);
    (t.(closed := closed), calls)
  }

  /** One round of the loop of process_data. */
  function ReceiveByte(s: Session, b: byte): (r: (Session, seq<S.Call>))
    requires s.Valid()
    ensures r.0.Valid()
  {
    ParserSafe(s.parser, b);
    var (p, m) := Feed(s.parser, b);
    match m
    case None => (s.(parser := p), [])
    case Some(x) => React(s.(parser := p), x)
  }

  /** process_data: the calls made on the socket meanwhile */
  function Receive(s: Session, data: seq<byte>): (r: (Session, seq<S.Call>))
    requires s.Valid()
    ensures r.0.Valid()
    decreases |data|
  {
    if data == [] then (s, [])
    else
      var (t, calls) := ReceiveByte(s, data[0]);
      var (u, more) := Receive(t, data[1..]);
      (u, calls + more)
  }

  /** process_data, once for each chunk */
  function ReceiveChunks(s: Session, chunks: seq<seq<byte>>): (r: (Session, seq<S.Call>))
    requires s.Valid()
    ensures r.0.Valid()
    decreases |chunks|
  {
    if chunks == [] then (s, [])
    else
      var (t, calls) := Receive(s, chunks[0]);
      var (u, more) := ReceiveChunks(t, chunks[1..]);
      (u, calls + more)
  }

  /** All that is asked of the connection because of a list of messages. */
  function Reactions(s: Session, ms: seq<Message>): (r: (Session, seq<WsCall>))
    requires s.Valid()
    ensures r.0.Valid() && AllCallsValid(r.1) && r.0.parser == s.parser && r.0.closed == s.closed
    decreases |ms|
  {
    if ms == [] then (s, [])
    else
      var (t, cs) := Reaction(s, ms[0]);
      var (u, more) := Reactions(t, ms[1..]);
      (u, cs + more)
  }

  /** Reacting does not depend on the parser or on whether the connection is closed. */
  lemma {:induction false} ReactionsApart(s: Session, ms: seq<Message>, p: Parser, closed: bool)
    requires s.Valid() && Safe(p)
    ensures var s' := s.(parser := p, closed := closed);
      var (t, cs) := Reactions(s, ms);
      s'.Valid() && Reactions(s', ms) == (t.(parser := p, closed := closed), cs)
    decreases |ms|
  {
    hide Safe, DeliveryOf;
    if ms != [] {
      ReactionsApart(Reaction(s, ms[0]).0, ms[1..], p, closed);
    }
  }

  lemma {:induction false} ReactionsAppend(s: Session, a: seq<Message>, b: seq<Message>)
    requires s.Valid()
    ensures var (t, cs) := Reactions(s, a);
      Reactions(s, a + b) == (Reactions(t, b).0, cs + Reactions(t, b).1)
    decreases |a|
  {
    hide Safe, Reaction;
    if a == [] {
      assert a + b == b && [] + Reactions(s, b).1 == Reactions(s, b).1;
    } else {
      assert (a + b)[0] == a[0] && (a + b)[1..] == a[1..] + b;
      var (t, cs) := Reaction(s, a[0]);
      ReactionsAppend(t, a[1..], b);
      var (u, more) := Reactions(t, a[1..]);
      var tail := Reactions(u, b).1;
      assert cs + (more + tail) == cs + more + tail;
    }
  }

  /** process_data does what the messages that the parser completes ask for, one after the other. */
  ghost predicate Does(s: Session, t: Session, calls: seq<S.Call>, p: Parser, ms: seq<Message>)
    requires s.Valid() && Safe(p)
  {
    var (u, cs) := Reactions(s, ms);
    var (closed, made) := PerformAll(s.closed, cs);
    calls == made && t == u.(parser := p, closed := closed)
  }

  lemma DoesTrans(s: Session, t: Session, u: Session, a: seq<S.Call>, b: seq<S.Call>, p: Parser, q: Parser,
                  ms: seq<Message>, ns: seq<Message>)
    requires s.Valid() && t.Valid() && Safe(p) && Safe(q)
    requires Does(s, t, a, p, ms) && Does(t, u, b, q, ns)
    ensures Does(s, u, a + b, q, ms + ns)
  {
    hide Safe, Session.Valid;
    var (s1, cs) := Reactions(s, ms);
    ReactionsAppend(s, ms, ns);
    var closed := PerformAll(s.closed, cs).0;
    ReactionsApart(s1, ns, p, closed);
    PerformAppend(s.closed, cs, Reactions(s1, ns).1);
  }

  lemma ByteDoes(s: Session, b: byte)
    requires s.Valid()
    ensures var (t, calls) := ReceiveByte(s, b);
      var (p, m) := Feed(s.parser, b);
      Safe(p) && Does(s, t, calls, p, Listed(m))
  {
    hide Feed, DeliveryOf, Perform;
    ParserSafe(s.parser, b);
    var (p, m) := Feed(s.parser, b);
    if m.Some? {
      var ms := Listed(m);
      assert ms[1..] == [];
      var s' := s.(parser := p);
      ReactionsApart(s, ms, p, s.closed);
      assert Reactions(s', ms) == (Reaction(s', ms[0]).0, Reaction(s', ms[0]).1 + []);
      assert Reaction(s', ms[0]).1 + [] == Reaction(s', ms[0]).1;
    }
  }

  lemma {:induction false} ReceiveDoes(s: Session, data: seq<byte>)
    requires s.Valid()
    ensures var (t, calls) := Receive(s, data);
      Does(s, t, calls, FeedAll(s.parser, data).0, FeedAll(s.parser, data).1)
    decreases |data|
  {
    hide Does, Feed, ReceiveByte, Safe;
    if data == [] {
      NothingDone(s);
    } else {
      var (t, calls) := ReceiveByte(s, data[0]);
      ByteDoes(s, data[0]);
      ParserSafe(s.parser, data[0]);
      var (p, m) := Feed(s.parser, data[0]);
      DoesParser(s, t, calls, p, Listed(m));
      ReceiveDoes(t, data[1..]);
      var (q, ms) := FeedAll(p, data[1..]);
      var (u, more) := Receive(t, data[1..]);
      DoesTrans(s, t, u, calls, more, p, q, Listed(m), ms);
    }
  }

  lemma NothingDone(s: Session)
    requires s.Valid()
    ensures Does(s, s, [], s.parser, [])
  {
  }

  lemma DoesParser(s: Session, t: Session, calls: seq<S.Call>, p: Parser, ms: seq<Message>)
    requires s.Valid() && Safe(p) && Does(s, t, calls, p, ms)
    ensures t.parser == p
  {
  }

  lemma {:induction false} ChunksDo(s: Session, chunks: seq<seq<byte>>)
    requires s.Valid()
    ensures var (t, calls) := ReceiveChunks(s, chunks);
      Does(s, t, calls, FeedChunks(s.parser, chunks).0, FeedChunks(s.parser, chunks).1)
    decreases |chunks|
  {
    hide Does, FeedAll, Receive, Safe;
    if chunks == [] {
      NothingDone(s);
    } else {
      var (t, calls) := Receive(s, chunks[0]);
      ReceiveDoes(s, chunks[0]);
      var (p, ms) := FeedAll(s.parser, chunks[0]);
      DoesParser(s, t, calls, p, ms);
      ChunksDo(t, chunks[1..]);
      var (q, ns) := FeedChunks(p, chunks[1..]);
      var (u, more) := ReceiveChunks(t, chunks[1..]);
      DoesTrans(s, t, u, calls, more, p, q, ms, ns);
    }
  }

  /** A close, by the other end or by on_message, shuts the socket down as the last thing that happens to
      it; without one there is no such call. */
  lemma {:induction false} CloseOnce(cs: seq<WsCall>)
    ensures var (closed, calls) := PerformAll(false, cs);
      && (closed <==> Close in cs)
      && (closed ==> calls != [] && calls[|calls| - 1] == S.CallShutdown)
      && (forall i :: 0 <= i < |calls| && !(closed && i == |calls| - 1) ==> calls[i].CallWrite?)
  {
    if cs != [] {
      var (closed, calls) := Perform(false, cs[0]);
      if closed {
        ClosedIsSilent(cs[1..]);
      } else {
        OnlyWrites(cs[0].Content().0, cs[0].Content().1);
        CloseOnce(cs[1..]);
      }
    }
  }

  lemma OnlyWrites(opcode: Opcode, datav: seq<Piece>)
    ensures forall i :: 0 <= i < |WritevCalls(opcode, datav)| ==> WritevCalls(opcode, datav)[i].CallWrite?
  {
  }

  // ---------- in terms of frames ----------

  /** What on_message is to be handed for a list of frames: the payload of each text, binary or continuation
      frame, binary for opcode 2 only, finished for the first octets 0x80, 0x81 and 0x82 only. */
  function Handed(fs: seq<F.Frame>): seq<Delivery> {
    if fs == [] then []
    else
      var f := fs[0];
      (if f.head % 16 == 0 || f.head % 16 == 1 || f.head % 16 == 2 then
         [Delivery(f.payload, f.head % 16 == 2,
            if f.head == 0x80 || f.head == 0x81 || f.head == 0x82 then FrameFinish
            else if f.head % 16 == 0 then FrameContinue
            else FrameStart)]
       else [])
      + Handed(fs[1..])
  }

  /** What is to be asked of the connection: at each of these frames what on_message does next, a pong with
      the payload of each frame of opcode 9, and a close for each one of opcode 8. */
  function Asked(fs: seq<F.Frame>, replies: seq<seq<WsCall>>, slack: seq<byte>): seq<WsCall> {
    if fs == [] then []
    else
      var f := fs[0];
      if f.head % 16 == 0 || f.head % 16 == 1 || f.head % 16 == 2 then
        if replies == [] then Asked(fs[1..], [], slack) else replies[0] + Asked(fs[1..], replies[1..], slack)
      else if f.head % 16 == 8 then [Close] + Asked(fs[1..], replies, slack)
      else if f.head % 16 == 9 then
        [Pong(S.Buf(PAYLOAD, f.payload + slack), |f.payload|)] + Asked(fs[1..], replies, slack)
      else Asked(fs[1..], replies, slack)
  }

  lemma OneReaction(s: Session, f: F.Frame)
    requires s.Valid()
    ensures var (t, cs) := Reaction(s, Message(f.head, f.payload));
      && t.delivered == s.delivered + Handed([f]) && t.slack == s.slack
      && cs == Asked([f], s.replies, s.slack)
      && t.replies == if f.head % 16 <= 2 && s.replies != [] then s.replies[1..] else s.replies
  {
    assert [f][1..] == [];
    assert s.delivered + [] == s.delivered;
    if s.replies != [] {
      assert s.replies[0] + [] == s.replies[0];
    }
  }

  lemma AskedCons(f: F.Frame, rest: seq<F.Frame>, replies: seq<seq<WsCall>>, slack: seq<byte>)
    ensures var left := if f.head % 16 <= 2 && replies != [] then replies[1..] else replies;
      Asked([f] + rest, replies, slack) == Asked([f], replies, slack) + Asked(rest, left, slack)
    ensures Handed([f] + rest) == Handed([f]) + Handed(rest)
  {
    assert ([f] + rest)[1..] == rest && [f][1..] == [];
    if replies != [] {
      assert replies[0] + [] == replies[0];
    }
  }

  lemma {:induction false} ReactionsOver(s: Session, fs: seq<F.Frame>)
    requires s.Valid()
    ensures var (t, cs) := Reactions(s, MessagesOf(fs));
      t.delivered == s.delivered + Handed(fs) && cs == Asked(fs, s.replies, s.slack)
    decreases |fs|
  {
    hide Reaction, Asked, Handed, Safe;
    var ms := MessagesOf(fs);
    if fs == [] {
      NothingAsked(s);
    } else {
      var f, rest := fs[0], fs[1..];
      assert fs == [f] + rest && ms[0] == Message(f.head, f.payload) && ms[1..] == MessagesOf(rest);
      OneReaction(s, f);
      AskedCons(f, rest, s.replies, s.slack);
      var t := Reaction(s, ms[0]).0;
      ReactionsOver(t, rest);
      assert (s.delivered + Handed([f])) + Handed(rest) == s.delivered + (Handed([f]) + Handed(rest));
    }
  }

  lemma NothingAsked(s: Session)
    ensures Asked([], s.replies, s.slack) == [] && s.delivered + Handed([]) == s.delivered
  {
  }

  /** A server connection that receives masked frames, cut into chunks at will: on_message is handed exactly
      what the frames say, in order, and the calls made on the socket are those of its replies, of the
      pongs and of the first close, in the order of the frames that cause them. */
  lemma Deliveries(fs: seq<F.Frame>, left: seq<byte>, chunks: seq<seq<byte>>, s: Session)
    requires F.AllValid(fs) && forall f :: f in fs ==> f.mask.Some?
    requires F.Decode(left) == None && (|left| >= 2 ==> left[1] >= 128)
    requires Concat(chunks) == F.EncodeAll(fs) + left
    requires s.Valid() && s.parser == NEW_PARSER
    ensures var (t, calls) := ReceiveChunks(s, chunks);
      && t.delivered == s.delivered + Handed(fs)
      && (t.closed, calls) == PerformAll(s.closed, Asked(fs, s.replies, s.slack))
  {
    hide ReceiveChunks, FeedChunks, Handed, Asked, Reactions, Safe;
    MaskedStream(fs, left, chunks);
    ChunksDo(s, chunks);
    ReactionsOver(s, fs);
  }

  // ---------- answering pings ----------

  /** gs are the pongs for the pings among the frames before the first close frame. */
  ghost predicate Answers(fs: seq<F.Frame>, gs: seq<F.Frame>) {
    if fs == [] || fs[0].head % 16 == 8 then gs == []
    else if fs[0].head % 16 == 9 then gs != [] && Served(gs[0], 10, fs[0].payload) && Answers(fs[1..], gs[1..])
    else Answers(fs[1..], gs)
  }

  /** on_message neither writes nor closes. */
  predicate Quiet(replies: seq<seq<WsCall>>) {
    forall r :: r in replies ==> r == []
  }

  predicate PingsFit(fs: seq<F.Frame>) {
    forall f :: f in fs && f.head % 16 == 9 ==> |f.payload| <= 0xFFFF_FFFF
  }

  /** A pong takes its bytes from the parser's buffer, behind which there may be slack. */
  lemma QuietAsks(f: F.Frame, rest: seq<F.Frame>, replies: seq<seq<WsCall>>, slack: seq<byte>)
    requires Quiet(replies)
    ensures var left := if f.head % 16 <= 2 && replies != [] then replies[1..] else replies;
      && Quiet(left)
      && Asked([f] + rest, replies, slack) ==
         (if f.head % 16 == 8 then [Close]
          else if f.head % 16 == 9 then [Pong(S.Buf(PAYLOAD, f.payload + slack), |f.payload|)]
          else [])
         + Asked(rest, left, slack)
  {
    assert ([f] + rest)[1..] == rest;
    if replies != [] {
      assert replies[0] in replies && forall r :: r in replies[1..] ==> r in replies;
    }
  }

  lemma {:induction false} QuietFrames(fs: seq<F.Frame>, replies: seq<seq<WsCall>>, slack: seq<byte>, gs: seq<F.Frame>)
    requires Quiet(replies) && PingsFit(fs)
    ensures var cs := Asked(fs, replies, slack);
      AllCallsValid(cs) && Fitting(cs) && (Answers(fs, gs) <==> Framed(cs, gs))
    decreases |fs|
  {
    hide Quiet, Served, Asked;
    if fs == [] {
      NoneAsked(replies, slack);
    } else {
      var f, rest := fs[0], fs[1..];
      var left := if f.head % 16 <= 2 && replies != [] then replies[1..] else replies;
      assert fs == [f] + rest && f in fs && forall x :: x in rest ==> x in fs;
      QuietAsks(f, rest, replies, slack);
      var more := Asked(rest, left, slack);
      if f.head % 16 == 8 {
        QuietFrames(rest, left, slack, gs);
        assert ([Close] + more)[0] == Close;
      } else if f.head % 16 == 9 {
        QuietFrames(rest, left, slack, if gs == [] then [] else gs[1..]);
        var pong := Pong(S.Buf(PAYLOAD, f.payload + slack), |f.payload|);
        assert ([pong] + more)[0] == pong && ([pong] + more)[1..] == more;
        assert (f.payload + slack)[..|f.payload|] == f.payload;
        assert Said(pong) == (10, f.payload);
      } else {
        QuietFrames(rest, left, slack, gs);
        assert [] + more == more;
      }
    }
  }

  lemma NoneAsked(replies: seq<seq<WsCall>>, slack: seq<byte>)
    ensures Asked([], replies, slack) == []
  {
  }
}
