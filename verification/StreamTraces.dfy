/** The calls that a run of a socket makes, and what can be said of them from the outside. */
module StreamTraces {
  import opened Options
  import opened Bytes
  import opened Pools
  import opened Stream
  import opened StreamRuns

  // ---------- the calls that a run makes ----------

  /** A call and the state in which it is made. */
  datatype Made = Made(at: Sock, call: Call) {
    predicate Valid() {
      Sound(at) && call.Valid()
    }

    /** The bytes of a write that is accepted. */
    function Accepted(): seq<byte>
      requires Valid()
    {
      if call.CallWrite? && at.state == Online then call.buf.mem[..call.len] else []
    }

    /** A direct write of which the kernel takes more than the caller asked to send. */
    predicate Strays()
      requires Valid()
    {
      call.CallWrite? && Overruns(at, call.buf, call.len)
    }

    /** What the socket has to free because of the call: an AUTORELEASE buffer, or a copy. */
    function Due(): multiset<BufId>
      requires Valid()
    {
      if call.CallWrite? then Entrusted(at, Do(at, call), call.buf, call.life) else multiset{}
    }
  }

  predicate Genuine(tr: seq<Made>) {
    forall m :: m in tr ==> m.Valid()
  }

  function CallsOf(s: Sock, cs: seq<Call>): (tr: seq<Made>)
    requires Sound(s) && forall c :: c in cs ==> c.Valid()
    ensures Genuine(tr)
    decreases cs
  {
    if cs == [] then [] else [Made(s, cs[0])] + CallsOf(Do(s, cs[0]), cs[1..])
  }

  function CallsOnRead(s: Sock, calls: seq<Call>): (tr: seq<Made>)
    requires Sound(s) && forall c :: c in calls ==> c.Valid()
    ensures Genuine(tr)
  {
    if s.state == Online then CallsOf(s, calls) else []
  }

  function CallsOnWritable(s: Sock, e: Event): (tr: seq<Made>)
    requires Sound(s) && e.Valid()
    ensures Genuine(tr)
  {
    if s.state == Online && !s.wouldBlock then
      var (t, n) := DoJobs(s, 0);
      if n == 1 then CallsOf(t, e.onDrain) else []
    else if s.state == Progress && e.connects then CallsOf(s.(state := Online), e.onConnected)
    else []
  }

  function CallsOnEvent(s: Sock, e: Event): (tr: seq<Made>)
    requires Sound(s) && e.Valid()
    ensures Genuine(tr)
  {
    var s1 := if e.writable then s.(wouldBlock := false) else s;
    var (s2, gone) := if e.readable then Read(s1, e.onRead, e.hangup) else (s1, false);
    (if e.readable then CallsOnRead(s1, e.onRead) else [])
    + (if e.writable && !gone then CallsOnWritable(s2, e) else [])
  }

  /** All calls of a run, those made by callbacks included, in the order in which they are made. */
  function Calls(s: Sock, ops: seq<Op>): (tr: seq<Made>)
    requires Sound(s) && forall op :: op in ops ==> op.Valid()
    ensures Genuine(tr)
    decreases ops
  {
    if ops == [] then []
    else
      assert ops[0].Valid();
      (match ops[0]
       case Api(c) => [Made(s, c)]
       case Loop(e) => CallsOnEvent(s, e))
      + Calls(Step(s, ops[0]), ops[1..])
  }

  /** The bytes of all accepted writes in call order. */
  function AcceptedBy(tr: seq<Made>): seq<byte>
    requires Genuine(tr)
  {
    if tr == [] then [] else tr[0].Accepted() + AcceptedBy(tr[1..])
  }

  predicate StrayIn(tr: seq<Made>)
    requires Genuine(tr)
  {
    exists m :: m in tr && m.Strays()
  }

  function DueIn(tr: seq<Made>): multiset<BufId>
    requires Genuine(tr)
  {
    if tr == [] then multiset{} else tr[0].Due() + DueIn(tr[1..])
  }

  /** How many bytes were accepted before the first shutdown that is accepted, if there is one. */
  function CutOf(tr: seq<Made>): Option<nat>
    requires Genuine(tr)
  {
    if tr == [] then None
    else if tr[0].call == CallShutdown && tr[0].at.state == Online then Some(0)
    else
      match CutOf(tr[1..])
      case None => None
      case Some(n) => Some(|tr[0].Accepted()| + n)
  }

  lemma GenuineAppend(a: seq<Made>, b: seq<Made>)
    requires Genuine(a) && Genuine(b)
    ensures Genuine(a + b)
    ensures StrayIn(a + b) <==> StrayIn(a) || StrayIn(b)
  {
    assert forall m :: m in a + b <==> m in a || m in b;
  }

  lemma {:induction false} AcceptedAppend(a: seq<Made>, b: seq<Made>)
    requires Genuine(a) && Genuine(b)
    ensures Genuine(a + b) && AcceptedBy(a + b) == AcceptedBy(a) + AcceptedBy(b)
  {
    GenuineAppend(a, b);
    if a == [] {
      assert a + b == b;
    } else {
      assert (a + b)[0] == a[0] && (a + b)[1..] == a[1..] + b;
      AcceptedAppend(a[1..], b);
    }
  }

  lemma {:induction false} DueAppend(a: seq<Made>, b: seq<Made>)
    requires Genuine(a) && Genuine(b)
    ensures Genuine(a + b) && DueIn(a + b) == DueIn(a) + DueIn(b)
  {
    GenuineAppend(a, b);
    if a == [] {
      assert a + b == b;
    } else {
      assert (a + b)[0] == a[0] && (a + b)[1..] == a[1..] + b;
      DueAppend(a[1..], b);
    }
  }

  lemma {:induction false} CutAppend(a: seq<Made>, b: seq<Made>)
    requires Genuine(a) && Genuine(b)
    ensures Genuine(a + b)
    ensures CutOf(a + b) == if CutOf(a).Some? then CutOf(a) else MovedBy(|AcceptedBy(a)|, CutOf(b))
  {
    GenuineAppend(a, b);
    if a == [] {
      assert a + b == b;
    } else {
      assert (a + b)[0] == a[0] && (a + b)[1..] == a[1..] + b;
      CutAppend(a[1..], b);
    }
  }

  function MovedBy(k: nat, cut: Option<nat>): Option<nat> {
    match cut case None => None case Some(n) => Some(k + n)
  }

  /** What a history gains from a trace of calls. */
  ghost predicate Grew(h: Hist, r: Hist, tr: seq<Made>) {
    && Genuine(tr)
    && r.accepted == h.accepted + AcceptedBy(tr)
    && (r.stray <==> h.stray || StrayIn(tr))
    && r.due == h.due + DueIn(tr)
    && r.cut == (if h.cut.Some? then h.cut else MovedBy(|h.accepted|, CutOf(tr)))
    && r.others == h.others
  }

  lemma GrewTrans(h: Hist, t: Hist, r: Hist, a: seq<Made>, b: seq<Made>)
    requires Grew(h, t, a) && Grew(t, r, b)
    ensures Grew(h, r, a + b)
  {
    hide Genuine, AcceptedBy, DueIn, CutOf, StrayIn;
    GenuineAppend(a, b);
    AcceptedAppend(a, b);
    DueAppend(a, b);
    CutAppend(a, b);
  }

  lemma NoteGrew(s: Sock, h: Hist, c: Call)
    requires Sound(s) && c.Valid()
    ensures Grew(h, Note(s, h, c), [Made(s, c)])
  {
    var m := Made(s, c);
    assert [m][1..] == [];
    assert AcceptedBy([m]) == m.Accepted() && DueIn([m]) == m.Due();
    assert m in [m] && forall x :: x in [m] ==> x == m;
  }

  lemma {:induction false} NoteAllGrew(s: Sock, h: Hist, cs: seq<Call>)
    requires Sound(s) && forall c :: c in cs ==> c.Valid()
    ensures Grew(h, NoteAll(s, h, cs), CallsOf(s, cs))
    decreases cs
  {
    if cs != [] {
      NoteGrew(s, h, cs[0]);
      NoteAllGrew(Do(s, cs[0]), Note(s, h, cs[0]), cs[1..]);
      GrewTrans(h, Note(s, h, cs[0]), NoteAll(s, h, cs), [Made(s, cs[0])], CallsOf(Do(s, cs[0]), cs[1..]));
    }
  }

  lemma NoteReadGrew(s: Sock, h: Hist, calls: seq<Call>, hangup: bool)
    requires Sound(s) && forall c :: c in calls ==> c.Valid()
    ensures Grew(h, NoteRead(s, h, calls, hangup), CallsOnRead(s, calls))
  {
    if s.state == Online {
      NoteAllGrew(s, h, calls);
    }
  }

  lemma NoteEventGrew(s: Sock, h: Hist, e: Event)
    requires Sound(s) && e.Valid()
    ensures Grew(h, NoteEvent(s, h, e), CallsOnEvent(s, e))
  {
    var s1 := if e.writable then s.(wouldBlock := false) else s;
    var (s2, gone) := if e.readable then Read(s1, e.onRead, e.hangup) else (s1, false);
    var h2 := if e.readable then NoteRead(s1, h, e.onRead, e.hangup) else h;
    var a := if e.readable then CallsOnRead(s1, e.onRead) else [];
    if e.readable {
      NoteReadGrew(s1, h, e.onRead, e.hangup);
    }
    assert Grew(h, h2, a);
    if e.writable && !gone {
      NoteWritableGrew(s2, h2, e);
      GrewTrans(h, h2, NoteEvent(s, h, e), a, CallsOnWritable(s2, e));
    } else {
      assert CallsOnEvent(s, e) == a + [] == a;
    }
  }

  lemma NoteWritableGrew(s: Sock, h: Hist, e: Event)
    requires Sound(s) && e.Valid()
    ensures Grew(h, NoteWritable(s, h, e), CallsOnWritable(s, e))
  {
    if s.state == Online && !s.wouldBlock {
      var (t, n) := DoJobs(s, 0);
      NoteAllGrew(t, NoteJobs(s, h), e.onDrain);
    } else if s.state == Progress && e.connects {
      NoteAllGrew(s.(state := Online), h, e.onConnected);
    }
  }

  lemma {:induction false} NoteRunGrew(s: Sock, h: Hist, ops: seq<Op>)
    requires Sound(s) && forall op :: op in ops ==> op.Valid()
    ensures Grew(h, NoteRun(s, h, ops), Calls(s, ops))
    decreases ops
  {
    if ops != [] {
      assert ops[0].Valid();
      var t := NoteStep(s, h, ops[0]);
      NoteRunGrew(Step(s, ops[0]), t, ops[1..]);
      match ops[0] {
        case Api(c) =>
          NoteGrew(s, h, c);
          GrewTrans(h, t, NoteRun(s, h, ops), [Made(s, c)], Calls(Step(s, ops[0]), ops[1..]));
        case Loop(e) =>
          NoteEventGrew(s, h, e);
          GrewTrans(h, t, NoteRun(s, h, ops), CallsOnEvent(s, e), Calls(Step(s, ops[0]), ops[1..]));
      }
    }
  }

  // ---------- scenarios ----------

  /** A new socket, the kernel's answers, and everything that happens to the socket. */
  datatype Scenario = Scenario(state: State, script: seq<Answer>, limitMb: nat, others: int, ops: seq<Op>) {
    predicate Valid() {
      state != Shutdown && state != Offline && forall op :: op in ops ==> op.Valid()
    }

    function Start(): (s: Sock)
      ensures Sound(s)
    {
      NewSock(state, script, limitMb, others)
    }

    /** The socket in the end. */
    function End(): (s: Sock)
      requires Valid()
      ensures Sound(s)
    {
      Run(Start(), ops)
    }

    /** The calls made. */
    function Trace(): (tr: seq<Made>)
      requires Valid()
      ensures Genuine(tr)
    {
      Calls(Start(), ops)
    }

    function Past(): Hist
      requires Valid()
    {
      NoteRun(Start(), NewHist(others), ops)
    }
  }

  lemma Summary(x: Scenario)
    requires x.Valid()
    ensures Invariant(x.End(), x.Past()) && Polling(x.End())
    ensures x.Past().accepted == AcceptedBy(x.Trace()) && x.Past().due == DueIn(x.Trace())
    ensures x.Past().stray <==> StrayIn(x.Trace())
    ensures x.Past().others == x.others && x.Past().cut == CutOf(x.Trace())
  {
    AnyRun(x.state, x.script, x.limitMb, x.others, x.ops);
    NoteRunGrew(x.Start(), NewHist(x.others), x.ops);
  }
}
