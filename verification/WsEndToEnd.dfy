/** The WebSocket layer on top of the byte path: what websocket.zig writes arrives. */
module WsEndToEnd {
  import opened Options
  import opened Bytes
  import S = Stream
  import R = StreamRuns
  import T = StreamTraces
  import I = StreamInputs
  import Theorems = StreamTheorems
  import F = Framing
  import opened WsParsing
  import opened WsWriting
  import opened WsSessions

  /** Cutting a sequence of calls short cuts what they offer short. */
  lemma OfferedPrefix(a: seq<S.Call>, b: seq<S.Call>)
    requires a <= b && forall c :: c in b ==> c.Valid()
    ensures (forall c :: c in a ==> c.Valid()) && S.Offered(a) <= S.Offered(b)
  {
    assert b == a + b[|a|..];
    S.OfferedAppend(a, b[|a|..]);
  }

  /** The pieces can be written safely to a kernel that is steady for writes of up to most bytes. */
  predicate MildPieces(cs: seq<WsCall>, most: nat) {
    forall c :: c in cs && !c.Close? ==>
      forall d :: d in c.Content().1 ==> I.Tight(d.buf, d.len) || d.len <= most
  }

  /** A header has at most 10 bytes, but its buffer has 32. */
  const HEADER: nat := 10

  lemma MildFrame(opcode: Opcode, datav: seq<Piece>, most: nat)
    requires most >= HEADER && forall d :: d in datav ==> I.Tight(d.buf, d.len) || d.len <= most
    ensures I.AllMild(WritevCalls(opcode, datav), most)
  {
    var head, pieces := HeadCalls(opcode, Total(datav)), PieceCalls(datav);
    forall c | c in pieces
      ensures I.Mild(c, most)
    {
      var i :| 0 <= i < |datav| && pieces[i] == c;
      assert datav[i] in datav;
    }
    assert forall c :: c in head ==> I.Mild(c, most);
  }

  lemma {:induction false} MildFrames(cs: seq<WsCall>, closed: bool, most: nat)
    requires most >= HEADER && MildPieces(cs, most)
    ensures I.AllMild(PerformAll(closed, cs).1, most)
    decreases |cs|
  {
    hide WritevCalls, I.Mild;
    if cs != [] {
      var c := cs[0];
      assert c in cs && forall d :: d in cs[1..] ==> d in cs;
      var (closed', calls) := Perform(closed, c);
      MildFrames(cs[1..], closed', most);
      if c.Close? {
        MildShutdown(most);
      } else {
        MildFrame(c.Content().0, c.Content().1, most);
      }
      var more := PerformAll(closed', cs[1..]).1;
      assert forall x :: x in calls + more ==> x in calls || x in more;
    }
  }

  lemma MildShutdown(most: nat)
    ensures I.Mild(S.CallShutdown, most)
  {
  }

  lemma StrayFree(x: T.Scenario, cs: seq<WsCall>, most: nat)
    requires x.Valid() && I.Steady(x.script, most) && most >= HEADER && MildPieces(cs, most)
    requires I.CallsIn(x.Trace()) <= PerformAll(false, cs).1
    ensures !T.StrayIn(x.Trace())
  {
    MildFrames(cs, false, most);
    hide I.Mild;
    forall c | c in I.CallsIn(x.Trace())
      ensures I.Mild(c, most)
    {
      assert c in PerformAll(false, cs).1;
    }
    I.MildCalls(x, most);
  }

  /** From writev to a decoder at the other end. A server connection makes any calls at any times. The
      kernel may split the writes as it likes, except that it does not take more bytes right after
      having taken part of a header, or of a piece behind whose end there is something to read. Then
      the wire is always the beginning of the concatenated frames, so that a decoder recovers the first
      frames exactly, opcodes and payloads, in order; and all of them, with nothing left over, once
      every call is done and nothing is queued. */
  lemma EndToEnd(x: T.Scenario, cs: seq<WsCall>, frames: seq<F.Frame>, most: nat)
    requires x.Valid() && x.state == S.Online
    requires I.Steady(x.script, most) && most >= HEADER && MildPieces(cs, most)
    requires AllCallsValid(cs) && Fitting(cs) && Framed(cs, frames)
    requires I.CallsIn(x.Trace()) <= PerformAll(false, cs).1
    ensures F.AllValid(frames) && x.End().kernel.wire <= F.EncodeAll(frames)
    ensures F.DecodeAll(x.End().kernel.wire).0 <= frames
    ensures x.End().state == S.Online && !x.End().jobs[0].active && I.CallsIn(x.Trace()) == PerformAll(false, cs).1
      ==> F.DecodeAll(x.End().kernel.wire) == (frames, [])
  {
    var s := x.End();
    StrayFree(x, cs, most);
    Theorems.StreamOrder(x);
    I.RunLeads(x.Start(), x.ops);
    CallsOffer(cs, frames);
    OfferedPrefix(I.CallsIn(x.Trace()), PerformAll(false, cs).1);
    var all := F.EncodeAll(frames);
    assert s.kernel.wire <= all;
    assert F.DecodeAll(all) == (frames, []) by {
      F.DecodeAllEncodeAll(frames, []);
      assert all + [] == all && F.DecodeAll([]) == ([], []) && frames + [] == frames;
    }
    F.DecodePrefix(s.kernel.wire, all);
  }

  // ---------- the buffers that writev and pong write from ----------

  /** The pieces that callers write are not in the header's buffer or the parser's. */
  predicate OwnPieces(cs: seq<WsCall>) {
    forall c :: c in cs && c.Writev? ==> forall d :: d in c.datav ==> d.buf.id != HEAD && d.buf.id != PAYLOAD
  }

  lemma LentByWritev(c: WsCall, call: S.Call, b: S.Buf)
    requires !c.Close? && (c.Writev? ==> forall d :: d in c.datav ==> d.buf.id != HEAD && d.buf.id != PAYLOAD)
    requires call in WritevCalls(c.Content().0, c.Content().1) && I.Lends(call, b)
    ensures b.id != HEAD && b.id != PAYLOAD
  {
    var datav := c.Content().1;
    assert call in HeadCalls(c.Content().0, Total(datav)) || call in PieceCalls(datav);
    if call in PieceCalls(datav) {
      var i :| 0 <= i < |datav| && PieceCalls(datav)[i] == call;
      assert datav[i] in datav;
    }
  }

  lemma {:induction false} LentByCalls(cs: seq<WsCall>, closed: bool, call: S.Call, b: S.Buf)
    requires OwnPieces(cs) && call in PerformAll(closed, cs).1 && I.Lends(call, b)
    ensures b.id != HEAD && b.id != PAYLOAD
    decreases |cs|
  {
    hide WritevCalls;
    if cs != [] {
      var (closed', calls) := Perform(closed, cs[0]);
      assert cs[0] in cs && forall c :: c in cs[1..] ==> c in cs;
      if call !in calls {
        LentByCalls(cs[1..], closed', call, b);
      } else if !closed && !cs[0].Close? {
        LentByWritev(cs[0], call, b);
      }
    }
  }

  /** No packet that is queued ever refers to the header's buffer, which is on the stack, or to the parser's,
      which is overwritten by the next message: what they hold has been copied. */
  lemma BuffersCopied(x: T.Scenario, cs: seq<WsCall>, b: S.Buf)
    requires x.Valid() && OwnPieces(cs) && I.CallsIn(x.Trace()) <= PerformAll(false, cs).1
    requires b.id == HEAD || b.id == PAYLOAD
    ensures !I.Refers(x.End(), b)
  {
    if I.Refers(x.End(), b) {
      I.ScopedCopied(x, b);
      var i :| 0 <= i < |x.Trace()| && I.Lends(x.Trace()[i].call, b);
      assert I.CallsIn(x.Trace())[i] == x.Trace()[i].call;
      LentByCalls(cs, false, x.Trace()[i].call, b);
    }
  }

  /** An input on which it fails: the kernel takes one byte of the header of an empty text frame and then
      two more, and the third byte of the header's buffer is sent as well. */
  lemma HeaderOverrun()
    ensures var s := R.NewSock(S.Online, [S.Accept(1), S.Accept(2)], 0, 0);
      var calls := WritevCalls(1, []);
      && (forall c :: c in calls ==> c.Valid())
      && S.DoAll(s, calls).kernel.wire == [129, 0, 0]
      && F.Encode(FrameOf(1, [])) == [129, 0]
  {
    var s := R.NewSock(S.Online, [S.Accept(1), S.Accept(2)], 0, 0);
    var calls := WritevCalls(1, []);
    var mem := PayloadHead(1, 0);
    var c := S.CallWrite(S.Buf(HEAD, mem), 2, S.Copy);
    assert calls == [c] && calls[1..] == [];
    assert mem[..3] == [129, 0, 0];
    I.LooseWrite(s.kernel, c.buf, 2);
    I.DirectWire(s, c.buf, 2, S.Copy);
    assert [] + mem[..3] == mem[..3];
  }

  /** Pings are answered, and nothing else is said. A new server connection whose on_message neither
      writes nor closes receives masked frames, cut into chunks at will, and the kernel splits what it
      sends as in EndToEnd: what the other end decodes are pongs with exactly the payloads of the pings
      before the first close frame, in order, the last ones possibly missing, and all of them once
      everything is sent. */
  lemma PongEcho(fs: seq<F.Frame>, left: seq<byte>, chunks: seq<seq<byte>>, s: Session, gs: seq<F.Frame>,
                 x: T.Scenario, most: nat)
    requires F.AllValid(fs) && (forall f :: f in fs ==> f.mask.Some?)
    requires F.Decode(left) == None && (|left| >= 2 ==> left[1] >= 128)
    requires Concat(chunks) == F.EncodeAll(fs) + left
    requires s.Valid() && s.parser == NEW_PARSER && !s.closed && Quiet(s.replies)
    requires PingsFit(fs) && Answers(fs, gs)
    requires x.Valid() && x.state == S.Online && I.Steady(x.script, most) && most >= HEADER
    requires s.slack == [] || forall f :: f in fs && f.head % 16 == 9 ==> |f.payload| <= most
    requires I.CallsIn(x.Trace()) <= ReceiveChunks(s, chunks).1
    ensures F.DecodeAll(x.End().kernel.wire).0 <= gs
    ensures x.End().state == S.Online && !x.End().jobs[0].active && I.CallsIn(x.Trace()) == ReceiveChunks(s, chunks).1
      ==> F.DecodeAll(x.End().kernel.wire) == (gs, [])
  {
    hide *;
    Deliveries(fs, left, chunks, s);
    QuietFrames(fs, s.replies, s.slack, gs);
    QuietMild(fs, s.replies, s.slack, most);
    EndToEnd(x, Asked(fs, s.replies, s.slack), gs, most);
  }

  lemma {:induction false} QuietMild(fs: seq<F.Frame>, replies: seq<seq<WsCall>>, slack: seq<byte>, most: nat)
    requires Quiet(replies)
    requires slack == [] || forall f :: f in fs && f.head % 16 == 9 ==> |f.payload| <= most
    ensures MildPieces(Asked(fs, replies, slack), most)
    decreases |fs|
  {
    hide Quiet, Asked;
    if fs == [] {
      NoneAsked(replies, slack);
    } else {
      var f, rest := fs[0], fs[1..];
      var left := if f.head % 16 <= 2 && replies != [] then replies[1..] else replies;
      assert fs == [f] + rest && f in fs && forall x :: x in rest ==> x in fs;
      QuietAsks(f, rest, replies, slack);
      QuietMild(rest, left, slack, most);
      if f.head % 16 == 9 && slack == [] {
        assert f.payload + slack == f.payload;
      }
    }
  }
}
