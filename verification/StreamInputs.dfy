/** What a caller and the kernel have to do for the results about the byte path to hold, in terms of
    the calls made and the answers given. */
module StreamInputs {
  import opened Bytes
  import opened Pools
  import opened Stream
  import opened StreamRuns
  import opened StreamTraces

  // ---------- what is accepted of what is offered ----------

  function CallsIn(tr: seq<Made>): (r: seq<Call>)
    ensures |r| == |tr| && forall i :: 0 <= i < |r| ==> r[i] == tr[i].call
  {
    seq(|tr|, i requires 0 <= i < |tr| => tr[i].call)
  }

  lemma CallsAppend(a: seq<Made>, b: seq<Made>)
    ensures CallsIn(a + b) == CallsIn(a) + CallsIn(b)
  {
  }

  lemma GenuineCalls(tr: seq<Made>)
    requires Genuine(tr)
    ensures forall c :: c in CallsIn(tr) ==> c.Valid()
  {
    forall c | c in CallsIn(tr)
      ensures c.Valid()
    {
      var i :| 0 <= i < |tr| && CallsIn(tr)[i] == c;
      assert tr[i] in tr;
    }
  }

  /** The connection is up or has been. */
  predicate Connected(s: Sock) {
    s.state != Progress && s.state != Pending
  }

  /** a is what is left of b. */
  predicate Suffix(a: seq<Answer>, b: seq<Answer>) {
    |a| <= |b| && b[|b| - |a|..] == a
  }

  lemma SuffixTrans(a: seq<Answer>, b: seq<Answer>, c: seq<Answer>)
    requires Suffix(a, b) && Suffix(b, c)
    ensures Suffix(a, c)
  {
  }

  /** The kernel's answers are used up one by one, and the limit stays. */
  predicate Later(s: Sock, t: Sock) {
    Suffix(t.kernel.script, s.kernel.script) && t.limitMb == s.limitMb
  }

  lemma LaterSame(s: Sock, t: Sock)
    requires t.kernel.script == s.kernel.script && t.limitMb == s.limitMb
    ensures Later(s, t)
  {
  }

  lemma LaterNext(s: Sock, t: Sock)
    requires s.kernel.script != [] && t.kernel.script == s.kernel.script[1..] && t.limitMb == s.limitMb
    ensures Later(s, t)
  {
  }

  predicate AllLater(s: Sock, tr: seq<Made>) {
    forall m :: m in tr ==> Later(s, m.at)
  }

  lemma LaterTrans(s: Sock, t: Sock, u: Sock)
    requires Later(s, t) && Later(t, u)
    ensures Later(s, u)
  {
    SuffixTrans(u.kernel.script, t.kernel.script, s.kernel.script);
  }

  /** A packet queued on the socket refers to this buffer. */
  ghost predicate Refers(s: Sock, b: Buf) {
    exists i, k :: 0 <= i < |s.jobs| && 0 <= k < |s.jobs[i].packets| && s.jobs[i].packets[k].buf == b
  }

  /** No packet refers to a buffer that none referred to before. */
  ghost predicate Fewer(s: Sock, t: Sock) {
    forall b: Buf :: Refers(t, b) ==> Refers(s, b)
  }

  /** A call has handed over a buffer that outlasts it: one that is neither STATIC nor COPY. */
  predicate Lends(c: Call, b: Buf) {
    c.CallWrite? && c.buf == b && c.life != Static && c.life != Copy
  }

  predicate Lent(tr: seq<Made>, b: Buf) {
    exists m :: m in tr && Lends(m.call, b)
  }

  /** A caller's buffer that packets refer to was referred to before or has been lent. */
  ghost predicate Borrows(s: Sock, tr: seq<Made>, t: Sock) {
    forall b: Buf :: b.id.User? && Refers(t, b) ==> Refers(s, b) || Lent(tr, b)
  }

  lemma BorrowsTrans(s: Sock, a: seq<Made>, t: Sock, b: seq<Made>, u: Sock)
    requires Borrows(s, a, t) && Borrows(t, b, u)
    ensures Borrows(s, a + b, u)
  {
    forall x: Buf | x.id.User? && Refers(u, x)
      ensures Refers(s, x) || Lent(a + b, x)
    {
      assert Refers(t, x) || Lent(b, x);
      LentMore(a, b, x);
    }
  }

  lemma LentMore(a: seq<Made>, b: seq<Made>, x: Buf)
    ensures Lent(a, x) || Lent(b, x) ==> Lent(a + b, x)
  {
    if Lent(a, x) || Lent(b, x) {
      var m :| (m in a || m in b) && Lends(m.call, x);
      assert m in a + b;
    }
  }

  /** Over a trace from s to t, everything offered is accepted until the connection is closed, and
      nothing from then on. */
  ghost predicate Leads(s: Sock, tr: seq<Made>, t: Sock) {
    && Genuine(tr) && Later(s, t) && AllLater(s, tr) && Borrows(s, tr, t)
    && (Connected(s) ==> Connected(t) && Accepting(s, tr, t))
  }

  ghost predicate Accepting(s: Sock, tr: seq<Made>, t: Sock)
    requires Genuine(tr)
  {
    GenuineCalls(tr);
    var accepted, offered := AcceptedBy(tr), Offered(CallsIn(tr));
    && accepted <= offered
    && (s.state != Online ==> t.state != Online && accepted == [])
    && (t.state == Online ==> accepted == offered)
  }

  lemma LeadsTrans(s: Sock, a: seq<Made>, t: Sock, b: seq<Made>, u: Sock)
    requires Leads(s, a, t) && Leads(t, b, u)
    ensures Leads(s, a + b, u)
  {
    AcceptedAppend(a, b);
    LaterTrans(s, t, u);
    BorrowsTrans(s, a, t, b, u);
    hide Borrows;
    forall m | m in a + b
      ensures Later(s, m.at)
    {
      if m in b {
        LaterTrans(s, t, m.at);
      }
    }
    CallsAppend(a, b);
    GenuineCalls(a + b);
    OfferedAppend(CallsIn(a), CallsIn(b));
    hide Offered, AcceptedBy, CallsIn;
    if Connected(s) {
      PrefixJoin(AcceptedBy(a), Offered(CallsIn(a)), AcceptedBy(b), Offered(CallsIn(b)));
    }
  }

  lemma PrefixJoin(a: seq<byte>, x: seq<byte>, b: seq<byte>, y: seq<byte>)
    requires a <= x && b <= y
    ensures a == x || b == [] ==> a + b <= x + y
    ensures a == [] && b == [] ==> a + b == []
  {
  }

  lemma {:induction false} WriteLoopLater(k: Kernel, mem: seq<byte>, len: nat, t: nat)
    requires t <= |mem| && len <= |mem|
    ensures Suffix(WriteLoop(k, mem, len, t).0.script, k.script)
    decreases |k.script|
  {
    if t < len && k.script != [] && k.script[0].Accept? {
      var m := Min(k.script[0].n, Min(len, |mem| - t));
      var k' := k.(script := k.script[1..], wire := k.wire + mem[t..t + m]);
      WriteLoopLater(k', mem, len, t + m);
      SuffixTrans(WriteLoop(k', mem, len, t + m).0.script, k'.script, k.script);
    }
  }

  /** Queueing does not talk to the kernel. */
  lemma QueueDataMoves(s: Sock, buf: Buf, len: nat, offset: nat, life: Lifetime)
    requires Sound(s) && offset < len <= |buf.mem|
    ensures var r := QueueData(s, buf, len, offset, life);
      && r.kernel.script == s.kernel.script && r.limitMb == s.limitMb
      && (s.state == Online ==> r.state == Online || r.state == Shutdown)
  {
    hide Sound, NewPacket, Append;
  }

  lemma WriteMoves(s: Sock, buf: Buf, len: nat, life: Lifetime)
    requires Sound(s) && len <= |buf.mem|
    ensures var r := Write(s, buf, len, life).0;
      && Later(s, r)
      && (s.state != Online ==> r.state == s.state)
      && (s.state == Online ==> r.state == Online || r.state == Shutdown)
  {
    var r := Write(s, buf, len, life).0;
    var (k, t, out) := WriteLoop(s.kernel, buf.mem, len, 0);
    hide WriteLoop, QueueData;
    if s.state != Online || len == 0 {
      LaterSame(s, r);
    } else if s.Busy() {
      QueueDataMoves(s, buf, len, 0, life);
      LaterSame(s, r);
    } else {
      WriteLoopLater(s.kernel, buf.mem, len, 0);
      if out == WouldBlock {
        QueueDataMoves(s.(kernel := k, wouldBlock := true), buf, len, t, life);
      }
    }
  }

  /** What one call does to the kernel's answers and to the state. */
  lemma DoMoves(s: Sock, c: Call)
    requires Sound(s) && c.Valid()
    ensures Later(s, Do(s, c))
    ensures Connected(s) ==> Connected(Do(s, c)) && (s.state != Online ==> Do(s, c).state != Online)
  {
    if c.CallWrite? {
      WriteMoves(s, c.buf, c.len, c.life);
      hide Write, Later;
    } else {
      LaterSame(s, Do(s, c));
      hide Later;
    }
  }

  lemma PacketAdded(s: Sock, p: Packet, b: Buf)
    requires Sound(s) && p.Valid() && Refers(Enqueue(s, p), b)
    ensures Refers(s, b) || b == p.buf
  {
    var g, e := GetSlot(s, WriteJob), Enqueue(s, p);
    var i, k :| 0 <= i < |e.jobs| && 0 <= k < |e.jobs[i].packets| && e.jobs[i].packets[k].buf == b;
    assert i < |s.jobs| ==> g.jobs[i].packets == s.jobs[i].packets;
    assert i >= |s.jobs| ==> g.jobs[i].packets == [];
    if i < |s.jobs| && k < |s.jobs[i].packets| {
      assert s.jobs[i].packets[k].buf == b;
    }
  }

  lemma QueueDataBorrows(s: Sock, buf: Buf, len: nat, offset: nat, life: Lifetime, b: Buf)
    requires Sound(s) && offset < len <= |buf.mem| && b.id.User?
    requires Refers(QueueData(s, buf, len, offset, life), b)
    ensures Refers(s, b) || (b == buf && life != Static && life != Copy)
  {
    var p := NewPacket(buf, len, offset, life, s.copies);
    var e := Enqueue(s, p);
    SameRefers(QueueData(s, buf, len, offset, life), e, b);
    PacketAdded(s, p, b);
  }

  lemma SameRefers(s: Sock, t: Sock, b: Buf)
    requires s.jobs == t.jobs && Refers(s, b)
    ensures Refers(t, b)
  {
    var i, k :| 0 <= i < |s.jobs| && 0 <= k < |s.jobs[i].packets| && s.jobs[i].packets[k].buf == b;
    assert t.jobs[i].packets[k].buf == b;
  }

  /** Scoped data is copied before it is queued. */
  lemma DoBorrows(s: Sock, c: Call)
    requires Sound(s) && c.Valid()
    ensures Borrows(s, [Made(s, c)], Do(s, c))
  {
    var tr := [Made(s, c)];
    forall b: Buf | b.id.User? && Refers(Do(s, c), b)
      ensures Refers(s, b) || Lent(tr, b)
    {
      match c
      case CallWrite(buf, len, life) =>
        WriteBorrows(s, buf, len, life, b);
        if Lends(c, b) {
          assert tr[0] in tr && Lends(tr[0].call, b);
        }
      case CallShutdown => SlotBorrows(s, b);
      case CallShutdownNow => SameRefers(Do(s, c), s, b);
    }
  }

  lemma SlotBorrows(s: Sock, b: Buf)
    requires Sound(s) && Refers(ShutdownQueued(s), b)
    ensures Refers(s, b)
  {
    var r := ShutdownQueued(s);
    var i, k :| 0 <= i < |r.jobs| && 0 <= k < |r.jobs[i].packets| && r.jobs[i].packets[k].buf == b;
    assert i < |s.jobs| && s.jobs[i].packets == r.jobs[i].packets;
    assert s.jobs[i].packets[k].buf == b;
  }

  lemma WriteBorrows(s: Sock, buf: Buf, len: nat, life: Lifetime, b: Buf)
    requires Sound(s) && len <= |buf.mem| && b.id.User? && Refers(Write(s, buf, len, life).0, b)
    ensures Refers(s, b) || (b == buf && life != Static && life != Copy)
  {
    var r := Write(s, buf, len, life).0;
    var (k, t, out) := WriteLoop(s.kernel, buf.mem, len, 0);
    hide WriteLoop, QueueData, Refers;
    if s.state == Online && len > 0 && s.Busy() {
      QueueDataBorrows(s, buf, len, 0, life, b);
    } else if s.state == Online && len > 0 && out == WouldBlock {
      var s' := s.(kernel := k, wouldBlock := true);
      QueueDataBorrows(s', buf, len, t, life, b);
      if Refers(s', b) {
        SameRefers(s', s, b);
      }
    } else {
      SameRefers(r, s, b);
    }
  }

  lemma CallLeads(s: Sock, c: Call)
    requires Sound(s) && c.Valid()
    ensures Leads(s, [Made(s, c)], Do(s, c))
  {
    DoMoves(s, c);
    DoBorrows(s, c);
    hide Do, Borrows;
    var tr := [Made(s, c)];
    assert tr[1..] == [];
    assert CallsIn(tr)[1..] == [];
    assert AcceptedBy(tr) == tr[0].Accepted();
    assert Offered(CallsIn(tr)) == if c.CallWrite? then c.buf.mem[..c.len] else [];
  }

  lemma {:induction false} CallsLead(s: Sock, cs: seq<Call>)
    requires Sound(s) && forall c :: c in cs ==> c.Valid()
    ensures Leads(s, CallsOf(s, cs), DoAll(s, cs))
    decreases cs
  {
    hide Leads, Do;
    if cs == [] {
      StateLeads(s, s);
    } else {
      CallLeads(s, cs[0]);
      CallsLead(Do(s, cs[0]), cs[1..]);
      LeadsTrans(s, [Made(s, cs[0])], Do(s, cs[0]), CallsOf(Do(s, cs[0]), cs[1..]), DoAll(s, cs));
    }
  }

  /** A step without calls, which may end the connection. */
  ghost predicate Silent(s: Sock, t: Sock) {
    && Later(s, t) && Fewer(s, t)
    && (Connected(s) ==> Connected(t) && (t.state == Online ==> s.state == Online))
  }

  lemma SilentLeads(s: Sock, t: Sock)
    requires Silent(s, t)
    ensures Leads(s, [], t)
  {
    assert CallsIn([]) == [];
  }

  lemma SilentTrans(s: Sock, t: Sock, u: Sock)
    requires Silent(s, t) && Silent(t, u)
    ensures Silent(s, u)
  {
    LaterTrans(s, t, u);
  }

  lemma FewerSame(s: Sock, t: Sock)
    requires t.jobs == s.jobs
    ensures Fewer(s, t)
  {
    forall b: Buf | Refers(t, b)
      ensures Refers(s, b)
    {
      SameRefers(t, s, b);
    }
  }

  lemma {:induction false} AdvanceFewer(ps: seq<Packet>, n: nat, p: Packet)
    requires Good(ps) && p in Advance(ps, n).0
    ensures exists q :: q in ps && q.buf == p.buf
  {
    if ps != [] && p !in ps {
      assert ps[0] in ps && forall q :: q in ps[1..] ==> q in ps;
      if n > ps[0].len - ps[0].offset {
        AdvanceFewer(ps[1..], n - (ps[0].len - ps[0].offset), p);
      }
    }
  }

  lemma TookFewer(s: Sock, n: nat)
    requires Sound(s) && s.kernel.script != []
    ensures Fewer(s, Took(s, n))
  {
    var r := Took(s, n);
    var ps := s.jobs[0].packets;
    var m := Min(n, |Payload(Chunk(ps))|);
    forall b: Buf | Refers(r, b)
      ensures Refers(s, b)
    {
      var i, k :| 0 <= i < |r.jobs| && 0 <= k < |r.jobs[i].packets| && r.jobs[i].packets[k].buf == b;
      if i == 0 {
        AdvanceFewer(ps, m, r.jobs[0].packets[k]);
        var q :| q in ps && q.buf == b;
        var x :| 0 <= x < |ps| && ps[x] == q;
        assert s.jobs[0].packets[x].buf == b;
      } else {
        assert s.jobs[i].packets[k].buf == b;
      }
    }
  }

  lemma {:induction false} FlushSilent(s: Sock)
    requires Sound(s)
    ensures Silent(s, Flush(s).0)
    decreases |s.kernel.script|
  {
    hide Later, Payload, Advance, Fewer;
    var k := s.kernel;
    var r := Flush(s).0;
    if s.jobs[0].packets == [] || k.script == [] {
      LaterSame(s, r);
      FewerSame(s, r);
    } else {
      match k.script[0]
      case Intr =>
        var t := s.(kernel := k.(script := k.script[1..]));
        LaterNext(s, t);
        FewerSame(s, t);
        FlushSilent(t);
        SilentTrans(s, t, r);
      case Accept(n) =>
        AdvanceValid(s.jobs[0].packets, Min(n, |Payload(Chunk(s.jobs[0].packets))|));
        LaterNext(s, Took(s, n));
        TookFewer(s, n);
        FlushSilent(Took(s, n));
        SilentTrans(s, Took(s, n), r);
      case _ =>
        LaterNext(s, r);
        FewerSame(s, r);
    }
  }

  lemma {:induction false} DoJobsSilent(s: Sock, done: nat)
    requires Sound(s)
    ensures Silent(s, DoJobs(s, done).0)
    decreases Active(s.jobs)
  {
    hide Complete, Later, Flush, Fewer;
    var j := s.jobs[0];
    if !j.active {
      LaterSame(s, s);
      FewerSame(s, s);
    } else {
      if j.writev && !j.shutdown {
        FlushSilent(s);
        var (f, how) := Flush(s);
        if how == Finished {
          ActiveComplete(f);
          ActiveSame(s.jobs, f.jobs);
          CompleteSilent(f);
          DoJobsSilent(Complete(f), done + 1);
          SilentTrans(s, f, Complete(f));
          SilentTrans(s, Complete(f), DoJobs(s, done).0);
        }
      } else if j.shutdown && !j.writev {
        LaterSame(s, DoJobs(s, done).0);
        FewerSame(s, DoJobs(s, done).0);
      } else {
        ActiveComplete(s);
        CompleteSilent(s);
        DoJobsSilent(Complete(s), done + 1);
        SilentTrans(s, Complete(s), DoJobs(s, done).0);
      }
    }
  }

  lemma CompleteSilent(s: Sock)
    requires Sound(s)
    ensures Silent(s, Complete(s))
  {
    var r := Complete(s);
    LaterSame(s, r);
    forall b: Buf | Refers(r, b)
      ensures Refers(s, b)
    {
      var i, k :| 0 <= i < |r.jobs| && 0 <= k < |r.jobs[i].packets| && r.jobs[i].packets[k].buf == b;
      var x := if i < s.cur then i + 1 else if i == s.cur then 0 else i;
      assert s.jobs[x].packets[k].buf == b;
    }
    hide Later;
  }

  /** A change of state that the answers have nothing to do with. */
  lemma StateLeads(s: Sock, t: Sock)
    requires t.kernel.script == s.kernel.script && t.limitMb == s.limitMb && t.jobs == s.jobs
    requires Connected(s) ==> Connected(t) && (t.state == Online ==> s.state == Online)
    ensures Leads(s, [], t)
  {
    LaterSame(s, t);
    FewerSame(s, t);
    hide Fewer;
    SilentLeads(s, t);
  }

  lemma ReadLeads(s: Sock, calls: seq<Call>, hangup: bool)
    requires Sound(s) && forall c :: c in calls ==> c.Valid()
    ensures Leads(s, CallsOnRead(s, calls), Read(s, calls, hangup).0)
  {
    hide Leads, DoAll;
    if s.state != Online {
      StateLeads(s, s);
    } else {
      var t := DoAll(s, calls);
      CallsLead(s, calls);
      StateLeads(t, Read(s, calls, hangup).0);
      LeadsTrans(s, CallsOf(s, calls), t, [], Read(s, calls, hangup).0);
      assert CallsOf(s, calls) + [] == CallsOf(s, calls);
    }
  }

  lemma WritableLeads(s: Sock, e: Event)
    requires Sound(s) && e.Valid()
    ensures Leads(s, CallsOnWritable(s, e), OnWritable(s, e))
  {
    assert Sound(s.(state := Online));
    hide Leads, DoJobs, DoAll, Sound, Silent;
    if s.state == Online && !s.wouldBlock {
      var (t, n) := DoJobs(s, 0);
      DoJobsSilent(s, 0);
      SilentLeads(s, t);
      if n == 1 {
        CallsLead(t, e.onDrain);
        LeadsTrans(s, [], t, CallsOf(t, e.onDrain), DoAll(t, e.onDrain));
        assert [] + CallsOf(t, e.onDrain) == CallsOf(t, e.onDrain);
      }
    } else if s.state == Progress && e.connects {
      var t := s.(state := Online);
      StateLeads(s, t);
      CallsLead(t, e.onConnected);
      LeadsTrans(s, [], t, CallsOf(t, e.onConnected), DoAll(t, e.onConnected));
      assert [] + CallsOf(t, e.onConnected) == CallsOf(t, e.onConnected);
    } else {
      StateLeads(s, OnWritable(s, e));
    }
  }

  lemma EventLeads(s: Sock, e: Event)
    requires Sound(s) && e.Valid()
    ensures Leads(s, CallsOnEvent(s, e), OnEvent(s, e))
  {
    var s1 := if e.writable then s.(wouldBlock := false) else s;
    var (s2, gone) := if e.readable then Read(s1, e.onRead, e.hangup) else (s1, false);
    var a := if e.readable then CallsOnRead(s1, e.onRead) else [];
    hide OnWritable, Read, Leads, CallsOnRead, CallsOnWritable, Connected;
    assert Leads(s, a, s2) by {
      StateLeads(s, s1);
      if e.readable {
        ReadLeads(s1, e.onRead, e.hangup);
        LeadsTrans(s, [], s1, a, s2);
        assert [] + a == a;
      }
    }
    if e.writable && !gone {
      WritableLeads(s2, e);
      LeadsTrans(s, a, s2, CallsOnWritable(s2, e), OnWritable(s2, e));
    } else {
      assert a + [] == a;
    }
  }

  lemma {:induction false} RunLeads(s: Sock, ops: seq<Op>)
    requires Sound(s) && forall op :: op in ops ==> op.Valid()
    ensures Leads(s, Calls(s, ops), Run(s, ops))
    decreases ops
  {
    hide OnEvent, Do, Leads;
    if ops == [] {
      StateLeads(s, s);
    } else {
      assert ops[0].Valid();
      var t := Step(s, ops[0]);
      var a := match ops[0] case Api(c) => [Made(s, c)] case Loop(e) => CallsOnEvent(s, e);
      match ops[0] {
        case Api(c) => CallLeads(s, c);
        case Loop(e) => EventLeads(s, e);
      }
      RunLeads(t, ops[1..]);
      LeadsTrans(s, a, t, Calls(t, ops[1..]), Run(s, ops));
    }
  }

  /** Every packet that is queued refers to a copy, or to a buffer that the caller has lent for longer than
      the call: scoped data, STATIC or COPY, may be gone as soon as the call returns. */
  lemma ScopedCopied(x: Scenario, b: Buf)
    requires x.Valid() && b.id.User? && Refers(x.End(), b)
    ensures exists m :: m in x.Trace() && Lends(m.call, b)
  {
    RunLeads(x.Start(), x.ops);
    assert Refers(x.Start(), b) || Lent(x.Trace(), b);
  }

  // ---------- when a direct write offers too much ----------

  /** Nothing can be read behind the buffer, or there is at most one byte to send. */
  predicate Tight(buf: Buf, len: nat) {
    len == |buf.mem| || len <= 1
  }

  lemma {:induction false} TightWrites(k: Kernel, buf: Buf, len: nat, t: nat)
    requires t <= len <= |buf.mem| && Tight(buf, len)
    ensures WriteLoop(k, buf.mem, len, t).1 <= len
    decreases |k.script|
  {
    if t < len && k.script != [] && k.script[0].Accept? {
      var m := Min(k.script[0].n, Min(len, |buf.mem| - t));
      TightWrites(k.(script := k.script[1..], wire := k.wire + buf.mem[t..t + m]), buf, len, t + m);
    }
  }

  /** One byte is taken, and then as many as were asked for. */
  lemma LooseWrite(k: Kernel, buf: Buf, len: nat)
    requires len <= |buf.mem| && !Tight(buf, len) && k.script == [Accept(1), Accept(len)]
    ensures WriteLoop(k, buf.mem, len, 0).1 == len + 1
  {
    var mem := buf.mem;
    var k1 := Kernel([Accept(len)], k.wire + mem[0..1], k.shut);
    assert k.script[1..] == [Accept(len)] && k1.script[1..] == [];
    assert Min(1, Min(len, |mem|)) == 1 && Min(len, Min(len, |mem| - 1)) == len;
    assert WriteLoop(k, mem, len, 0) == WriteLoop(k1, mem, len, 1);
    var k2 := Kernel([], k1.wire + mem[1..1 + len], k.shut);
    assert WriteLoop(k1, mem, len, 1) == WriteLoop(k2, mem, len, 1 + len);
  }

  /** APE_socket_write never lets the kernel take more than it was asked to send, whatever the kernel
      answers, if and only if the call is tight. */
  lemma TightExact(buf: Buf, len: nat)
    requires len <= |buf.mem|
    ensures (forall k: Kernel :: WriteLoop(k, buf.mem, len, 0).1 <= len) <==> Tight(buf, len)
  {
    if Tight(buf, len) {
      forall k: Kernel
        ensures WriteLoop(k, buf.mem, len, 0).1 <= len
      {
        TightWrites(k, buf, len, 0);
      }
    } else {
      LooseWrite(Kernel([Accept(1), Accept(len)], [], false), buf, len);
    }
  }

  /** What a direct write puts on the wire. */
  lemma DirectWire(s: Sock, buf: Buf, len: nat, life: Lifetime)
    requires Sound(s) && s.state == Online && !s.Busy() && 0 < len <= |buf.mem|
    ensures Write(s, buf, len, life).0.kernel.wire
      == s.kernel.wire + buf.mem[..WriteLoop(s.kernel, buf.mem, len, 0).1]
  {
    WriteLoopSends(s.kernel, buf.mem, len, 0);
  }

  /** The kernel takes all of a write of up to most bytes, or its next answer is not to take more: a
      short write means that its buffer is full. */
  predicate Steady(script: seq<Answer>, most: nat) {
    forall i :: 0 <= i < |script| - 1 && script[i].Accept? && script[i + 1].Accept? ==> script[i].n >= most
  }

  lemma SteadySuffix(a: seq<Answer>, b: seq<Answer>, most: nat)
    requires Suffix(a, b) && Steady(b, most)
    ensures Steady(a, most)
  {
    var k := |b| - |a|;
    forall i | 0 <= i < |a| - 1 && a[i].Accept? && a[i + 1].Accept?
      ensures a[i].n >= most
    {
      assert a[i] == b[k + i] && a[i + 1] == b[k + i + 1];
    }
  }

  lemma SteadyWrites(k: Kernel, mem: seq<byte>, len: nat, most: nat)
    requires Steady(k.script, most) && len <= most && len <= |mem|
    ensures WriteLoop(k, mem, len, 0).1 <= len
  {
  }

  /** A call that cannot go wrong with a kernel that is steady for writes of up to most bytes. */
  predicate Mild(c: Call, most: nat) {
    c.CallWrite? ==> Tight(c.buf, c.len) || c.len <= most
  }

  predicate AllMild(cs: seq<Call>, most: nat) {
    forall c :: c in cs ==> Mild(c, most)
  }

  /** Mild calls never offer a steady kernel too much. */
  lemma MildCalls(x: Scenario, most: nat)
    requires x.Valid() && Steady(x.script, most) && AllMild(CallsIn(x.Trace()), most)
    ensures !StrayIn(x.Trace())
  {
    var tr := x.Trace();
    RunLeads(x.Start(), x.ops);
    hide Steady, Suffix, Mild, Calls, Run;
    forall m | m in tr
      ensures !m.Strays()
    {
      var i :| 0 <= i < |tr| && tr[i] == m;
      assert CallsIn(tr)[i] == m.call;
      SteadySuffix(m.at.kernel.script, x.script, most);
      MildCall(m, most);
    }
  }

  lemma MildCall(m: Made, most: nat)
    requires m.Valid() && Steady(m.at.kernel.script, most) && Mild(m.call, most)
    ensures !m.Strays()
  {
    if m.call.CallWrite? {
      if Tight(m.call.buf, m.call.len) {
        TightWrites(m.at.kernel, m.call.buf, m.call.len, 0);
      } else {
        SteadyWrites(m.at.kernel, m.call.buf.mem, m.call.len, most);
      }
    }
  }

  // ---------- the calls that are given ----------

  /** What a scenario may have called: from outside, or in a callback. */
  function GivenBy(op: Op): seq<Call> {
    match op
    case Api(c) => [c]
    case Loop(e) => e.onRead + e.onConnected + e.onDrain
  }

  function Given(ops: seq<Op>): seq<Call> {
    if ops == [] then [] else GivenBy(ops[0]) + Given(ops[1..])
  }

  lemma {:induction false} CallsOfGiven(s: Sock, cs: seq<Call>)
    requires Sound(s) && forall c :: c in cs ==> c.Valid()
    ensures forall m :: m in CallsOf(s, cs) ==> m.call in cs
    decreases cs
  {
    if cs != [] {
      CallsOfGiven(Do(s, cs[0]), cs[1..]);
    }
  }

  lemma EventGiven(s: Sock, e: Event)
    requires Sound(s) && e.Valid()
    ensures forall m :: m in CallsOnEvent(s, e) ==> m.call in GivenBy(Loop(e))
  {
    var s1 := if e.writable then s.(wouldBlock := false) else s;
    var (s2, gone) := if e.readable then Read(s1, e.onRead, e.hangup) else (s1, false);
    CallsOfGiven(s1, e.onRead);
    CallsOfGiven(s2.(state := Online), e.onConnected);
    CallsOfGiven(DoJobs(s2, 0).0, e.onDrain);
  }

  /** Every call that a run makes is one of those given. */
  lemma {:induction false} RunGiven(s: Sock, ops: seq<Op>)
    requires Sound(s) && forall op :: op in ops ==> op.Valid()
    ensures forall m :: m in Calls(s, ops) ==> m.call in Given(ops)
    decreases ops
  {
    hide OnEvent, Do, CallsOnEvent, GivenBy;
    if ops != [] {
      assert ops[0].Valid();
      RunGiven(Step(s, ops[0]), ops[1..]);
      match ops[0] {
        case Api(c) => ApiGiven(c);
        case Loop(e) => EventGiven(s, e);
      }
    }
  }

  lemma ApiGiven(c: Call)
    ensures c in GivenBy(Api(c))
  {
  }

  /** The conditions on the input: writes that leave nothing readable behind the buffer may be of any
      length, for the others the kernel has to be steady. */
  predicate Harmless(x: Scenario, most: nat) {
    Steady(x.script, most) && AllMild(Given(x.ops), most)
  }

  lemma HarmlessRuns(x: Scenario, most: nat)
    requires x.Valid() && Harmless(x, most)
    ensures !StrayIn(x.Trace())
  {
    var tr := x.Trace();
    RunGiven(x.Start(), x.ops);
    forall c | c in CallsIn(tr)
      ensures Mild(c, most)
    {
      var i :| 0 <= i < |tr| && CallsIn(tr)[i] == c;
      assert tr[i] in tr;
    }
    MildCalls(x, most);
  }

  // ---------- when a connection ends in no other way than by a shutdown ----------

  /** Nothing but a shutdown can end the connection: it is up, there is no limit, and the kernel does
      not fail. */
  predicate Gentle(s: Sock) {
    Connected(s) && s.limitMb == 0 && Fail !in s.kernel.script
  }

  /** A direct write that is broken off by an error; EINTR counts as one there. */
  predicate Broken(s: Sock, c: Call)
    requires Sound(s) && c.Valid()
  {
    c.CallWrite? && s.state == Online && !s.Busy() && c.len > 0 && WriteLoop(s.kernel, c.buf.mem, c.len, 0).2 == IoError
  }

  /** The calls made are writes that are not broken off, and queued shutdowns. */
  predicate Peaceful(tr: seq<Made>)
    requires Genuine(tr)
  {
    forall m :: m in tr ==> !m.call.CallShutdownNow? && !Broken(m.at, m.call)
  }

  lemma GentleLater(s: Sock, t: Sock)
    requires Gentle(s) && Later(s, t) && Connected(t)
    ensures Gentle(t)
  {
    assert forall a :: a in t.kernel.script ==> a in s.kernel.script;
  }

  lemma CallGentle(s: Sock, h: Hist, c: Call)
    requires Sound(s) && c.Valid() && Gentle(s) && !c.CallShutdownNow? && !Broken(s, c)
    ensures Gentle(Do(s, c)) && Note(s, h, c).abrupt == h.abrupt
  {
    DoMoves(s, c);
    GentleLater(s, Do(s, c));
    if c.CallWrite? && s.state == Online && c.len > 0 {
      hide WriteLoop, Enqueue;
    }
  }

  lemma {:induction false} CallsGentle(s: Sock, h: Hist, cs: seq<Call>)
    requires Sound(s) && Gentle(s) && forall c :: c in cs ==> c.Valid()
    requires Peaceful(CallsOf(s, cs))
    ensures Gentle(DoAll(s, cs)) && NoteAll(s, h, cs).abrupt == h.abrupt
    decreases cs
  {
    hide Do, Gentle, Note, Broken;
    if cs != [] {
      var tr := CallsOf(s, cs);
      assert tr[0] in tr && forall m :: m in tr[1..] ==> m in tr;
      CallGentle(s, h, cs[0]);
      CallsGentle(Do(s, cs[0]), Note(s, h, cs[0]), cs[1..]);
    }
  }

  lemma {:induction false} FlushNotFailed(s: Sock)
    requires Sound(s) && Fail !in s.kernel.script
    ensures Flush(s).1 != Failed
    decreases |s.kernel.script|
  {
    hide Payload, Advance;
    var k := s.kernel;
    if s.jobs[0].packets != [] && k.script != [] {
      assert forall a :: a in k.script[1..] ==> a in k.script;
      match k.script[0]
      case Intr => FlushNotFailed(s.(kernel := k.(script := k.script[1..])));
      case Accept(n) =>
        AdvanceValid(s.jobs[0].packets, Min(n, |Payload(Chunk(s.jobs[0].packets))|));
        FlushNotFailed(Took(s, n));
      case _ =>
    }
  }

  /** The job list ends the connection by its SHUTDOWN job only. */
  lemma JobsGentle(s: Sock, h: Hist)
    requires Invariant(s, h) && Gentle(s) && s.state == Online && !s.wouldBlock
    ensures Gentle(DoJobs(s, 0).0) && NoteJobs(s, h).abrupt == h.abrupt
  {
    DoJobsSilent(s, 0);
    GentleLater(s, DoJobs(s, 0).0);
    if s.jobs[0].active {
      FlushNotFailed(s);
      var x := FlushDrains(s);
      if Flush(s).1 == Finished {
        FinishedJobs(s, x);
        if s.cur > 0 {
          assert Complete(x).jobs[0] == s.jobs[1];
        }
      }
    }
  }

  /** What can happen in one round without ending the connection but by a shutdown. */
  predicate Kind(e: Event) {
    !e.hangup
  }

  lemma ReadGentle(s: Sock, h: Hist, calls: seq<Call>)
    requires Sound(s) && Gentle(s) && forall c :: c in calls ==> c.Valid()
    requires Peaceful(CallsOnRead(s, calls))
    ensures Gentle(Read(s, calls, false).0) && NoteRead(s, h, calls, false).abrupt == h.abrupt
  {
    if s.state == Online {
      CallsGentle(s, h, calls);
    }
  }

  lemma WritableGentle(s: Sock, h: Hist, e: Event)
    requires Invariant(s, h) && Gentle(s) && e.Valid() && Peaceful(CallsOnWritable(s, e))
    ensures Gentle(OnWritable(s, e)) && NoteWritable(s, h, e).abrupt == h.abrupt
  {
    if s.state == Online && !s.wouldBlock {
      JobsGentle(s, h);
      var (t, n) := DoJobs(s, 0);
      if n == 1 {
        CallsGentle(t, NoteJobs(s, h), e.onDrain);
      }
    }
  }

  lemma PeacefulParts(a: seq<Made>, b: seq<Made>)
    requires Genuine(a) && Genuine(b) && Genuine(a + b) && Peaceful(a + b)
    ensures Peaceful(a) && Peaceful(b)
  {
    hide Broken;
    assert (forall m :: m in a ==> m in a + b) && (forall m :: m in b ==> m in a + b);
  }

  lemma EventGentle(s: Sock, h: Hist, e: Event)
    requires Invariant(s, h) && Gentle(s) && e.Valid() && Kind(e) && Peaceful(CallsOnEvent(s, e))
    ensures Gentle(OnEvent(s, e)) && NoteEvent(s, h, e).abrupt == h.abrupt
  {
    assert Sound(s) && Gentle(s.(wouldBlock := false));
    hide Invariant, Gentle, Peaceful, Read, OnWritable, NoteRead, NoteWritable, CallsOnRead, CallsOnWritable, Sound;
    var s1 := if e.writable then s.(wouldBlock := false) else s;
    WritableKeeps(s, h);
    var (s2, gone) := if e.readable then Read(s1, e.onRead, e.hangup) else (s1, false);
    var h2 := if e.readable then NoteRead(s1, h, e.onRead, e.hangup) else h;
    var a := if e.readable then CallsOnRead(s1, e.onRead) else [];
    var b := if e.writable && !gone then CallsOnWritable(s2, e) else [];
    PeacefulParts(a, b);
    if e.readable {
      ReadKeeps(s1, h, e.onRead, e.hangup);
      ReadGentle(s1, h, e.onRead);
    }
    if e.writable && !gone {
      WritableGentle(s2, h2, e);
    }
  }

  /** The calls made by one operation of a run. */
  function CallsOfStep(s: Sock, op: Op): (tr: seq<Made>)
    requires Sound(s) && op.Valid()
    ensures Genuine(tr)
  {
    match op
    case Api(c) => [Made(s, c)]
    case Loop(e) => CallsOnEvent(s, e)
  }

  lemma StepGentle(s: Sock, h: Hist, op: Op)
    requires Invariant(s, h) && Sound(s) && Gentle(s) && op.Valid()
    requires (op.Loop? ==> Kind(op.event)) && Peaceful(CallsOfStep(s, op))
    ensures var t, h' := Step(s, op), NoteStep(s, h, op);
      Invariant(t, h') && Gentle(t) && h'.abrupt == h.abrupt
  {
    match op {
      case Api(c) =>
        assert CallsOfStep(s, op)[0] == Made(s, c);
        hide Invariant, Gentle, Do, Note;
        CallGentle(s, h, c);
        DoKeeps(s, h, c);
      case Loop(e) =>
        hide Invariant, Gentle, Peaceful;
        EventGentle(s, h, e);
        EventKeeps(s, h, e);
    }
  }

  lemma {:induction false} RunGentle(s: Sock, h: Hist, ops: seq<Op>)
    requires Invariant(s, h) && Gentle(s) && forall op :: op in ops ==> op.Valid()
    requires (forall op :: op in ops && op.Loop? ==> Kind(op.event)) && Peaceful(Calls(s, ops))
    ensures NoteRun(s, h, ops).abrupt == h.abrupt
    decreases ops
  {
    assert Sound(s);
    hide Invariant, Gentle, Peaceful, Step, NoteStep;
    if ops != [] {
      assert ops[0].Valid();
      var t, h' := Step(s, ops[0]), NoteStep(s, h, ops[0]);
      var a, rest := CallsOfStep(s, ops[0]), Calls(t, ops[1..]);
      assert Calls(s, ops) == a + rest;
      PeacefulParts(a, rest);
      StepGentle(s, h, ops[0]);
      RunGentle(t, h', ops[1..]);
    }
  }

  /** An accepted connection without a limit, a kernel that does not fail, no hangup, and no other calls
      than writes that are not broken off and APE_socket_shutdown. */
  predicate Calm(x: Scenario)
    requires x.Valid()
  {
    && x.state == Online && x.limitMb == 0 && Fail !in x.script
    && (forall op :: op in x.ops && op.Loop? ==> Kind(op.event))
    && Peaceful(x.Trace())
  }

  lemma CalmRuns(x: Scenario)
    requires x.Valid() && Calm(x)
    ensures !x.Past().abrupt
  {
    AnyRun(x.state, x.script, x.limitMb, x.others, []);
    RunGentle(x.Start(), NewHist(x.others), x.ops);
  }

  /** Without EINTR no direct write is broken off by it, so that Calm is a matter of the input alone. */
  lemma CalmInput(x: Scenario)
    requires x.Valid() && x.state == Online && x.limitMb == 0 && Fail !in x.script && Intr !in x.script
    requires forall op :: op in x.ops && op.Loop? ==> Kind(op.event)
    requires forall c :: c in Given(x.ops) ==> !c.CallShutdownNow?
    ensures Calm(x)
  {
    var tr := x.Trace();
    RunLeads(x.Start(), x.ops);
    RunGiven(x.Start(), x.ops);
    forall m | m in tr
      ensures !m.call.CallShutdownNow? && !Broken(m.at, m.call)
    {
      assert m.Valid() && m.call in Given(x.ops);
      var script := m.at.kernel.script;
      assert forall a :: a in script ==> a in x.script;
      if m.call.CallWrite? {
        NotBroken(m.at.kernel, m.call.buf.mem, m.call.len, 0);
      }
    }
  }

  lemma {:induction false} NotBroken(k: Kernel, mem: seq<byte>, len: nat, t: nat)
    requires t <= |mem| && len <= |mem| && Fail !in k.script && Intr !in k.script
    ensures WriteLoop(k, mem, len, t).2 != IoError
    decreases |k.script|
  {
    if t < len && k.script != [] && k.script[0].Accept? {
      var m := Min(k.script[0].n, Min(len, |mem| - t));
      NotBroken(k.(script := k.script[1..], wire := k.wire + mem[t..t + m]), mem, len, t + m);
    }
  }
}
