/** What the app side hands in for a flow is in the socket, in `pending` or in the backlog, in order,
    whatever the loop does in between. */
module Conservation {
  import opened Bytes
  import opened Net
  import opened Isolation

  /** A flow's stream: its octets, and where the app asked to close it. */
  datatype Token = Octet(octet: Byte) | Fin

  function OctetTokens(data: seq<Byte>): (ts: seq<Token>)
    ensures |ts| == |data|
  {
    seq(|data|, i requires 0 <= i < |data| => Octet(data[i]))
  }

  function TokensOf(d: DataIn): seq<Token> {
    match d
    case Tcp(_, data) => OctetTokens(data)
    case TcpClose(_) => [Fin]
    case _ => []
  }

  function Tokens(q: seq<DataIn>): seq<Token> {
    if q == [] then [] else TokensOf(q[0]) + Tokens(q[1..])
  }

  /** The octets of a stream. */
  function Octets(ts: seq<Token>): seq<Byte> {
    if ts == [] then [] else (if ts[0].Octet? then [ts[0].octet] else []) + Octets(ts[1..])
  }

  lemma {:induction false} TokensAppend(a: seq<DataIn>, b: seq<DataIn>)
    ensures Tokens(a + b) == Tokens(a) + Tokens(b)
  {
    hide TokensOf;
    if a == [] {
      assert a + b == b;
    } else {
      TokensAppend(a[1..], b);
      assert (a + b)[1..] == a[1..] + b;
      var head := TokensOf(a[0]);
      assert head + (Tokens(a[1..]) + Tokens(b)) == head + Tokens(a[1..]) + Tokens(b);
    }
  }

  lemma {:induction false} OctetsAppend(a: seq<Token>, b: seq<Token>)
    ensures Octets(a + b) == Octets(a) + Octets(b)
  {
    if a == [] {
      assert a + b == b;
    } else {
      OctetsAppend(a[1..], b);
      assert (a + b)[1..] == a[1..] + b;
      var head := if a[0].Octet? then [a[0].octet] else [];
      assert head + (Octets(a[1..]) + Octets(b)) == head + Octets(a[1..]) + Octets(b);
    }
  }

  lemma {:induction false} OctetsOfData(data: seq<Byte>)
    ensures Octets(OctetTokens(data)) == data
  {
    if data != [] {
      OctetsOfData(data[1..]);
      assert OctetTokens(data)[1..] == OctetTokens(data[1..]);
    }
  }

  /** The stream the app side has handed in for flow `j` over a run. */
  function Heard(events: seq<Event>, j: nat): seq<Token>
    decreases |events|
  {
    if events == [] then []
    else
      var last := events[|events| - 1];
      Heard(events[..|events| - 1], j) + if last.Ingest? && last.d.id == j then TokensOf(last.d) else []
  }

  /** Whether the stream `taken` has left the backlog for flow `f`: its octets are in the socket or
      pending, in order, and the flow is half-closed exactly when a close is among them. */
  ghost predicate Took(f: Flow, taken: seq<Token>) {
    && Octets(taken) == f.socket.accepted + f.pending
    && (f.halfClosed <==> Fin in taken)
  }

  /** The stream that `q` still holds for `j`. */
  function Rest(q: seq<DataIn>, j: nat): seq<Token> { Tokens(Only(q, j)) }

  lemma RestAppend(a: seq<DataIn>, b: seq<DataIn>, j: nat)
    ensures Rest(a + b, j) == Rest(a, j) + Rest(b, j)
  {
    OnlyAppend(a, b, j);
    TokensAppend(Only(a, j), Only(b, j));
  }

  lemma RestOne(d: DataIn)
    ensures Rest([d], d.id) == TokensOf(d)
    ensures forall j | j != d.id :: Rest([d], j) == []
  {
    assert Only([d], d.id) == [d];
    assert Tokens([d]) == TokensOf(d) + [];
    assert forall j | j != d.id :: Only([d], j) == [];
  }

  /** What the backlog holds for `j` is the end of `heard`, and all before it has been taken. */
  ghost predicate Conserves(n: Net, heard: seq<Token>, j: nat) {
    j in n.tcp && !n.tcp[j].socket.reset ==>
      exists taken :: Took(n.tcp[j], taken) && heard == taken + Rest(n.backlog, j)
  }

  lemma OctetsTaken(f: Flow, g: Flow, taken: seq<Token>, data: seq<Byte>)
    requires Took(f, taken) && g == f.(pending := f.pending + data)
    ensures Took(g, taken + OctetTokens(data))
  {
    OctetsOfData(data);
    OctetsAppend(taken, OctetTokens(data));
    assert f.socket.accepted + f.pending + data == f.socket.accepted + (f.pending + data);
    assert Fin !in OctetTokens(data);
  }

  lemma SplitOctets(data: seq<Byte>, k: nat)
    requires k <= |data|
    ensures OctetTokens(data[..k]) + OctetTokens(data[k..]) == OctetTokens(data)
  {
  }

  /** A message given to its flow: what is taken of it and what is left of it make the message. */
  lemma HandleTakes(n: Net, d: DataIn, taken: seq<Token>) returns (now: seq<Token>)
    requires d.id in n.tcp && Took(n.tcp[d.id], taken)
    ensures var (m, back) := Handle(n, d);
            && now + Rest(Waiting(back), d.id) == TokensOf(d)
            && d.id in m.tcp && Took(m.tcp[d.id], taken + now)
  {
    hide Took, Octets, OctetTokens;
    var (m, back) := Handle(n, d);
    var f := n.tcp[d.id];
    if back.Some? {
      RestOne(back.value);
    }
    match d {
      case Tcp(_, data) =>
        var space := if |f.pending| >= n.maxPending then 0 else n.maxPending - |f.pending|;
        var k := if |data| <= space then |data| else space;
        now := OctetTokens(data[..k]);
        SplitOctets(data, k);
        OctetsTaken(f, f.(pending := f.pending + data[..k]), taken, data[..k]);
        assert f.pending + data[..0] == f.pending && data[..|data|] == data && data[0..] == data;
        if back.None? && |f.pending| < n.maxPending {
          assert now + [] == now;
        }
      case TcpClose(_) =>
        now := [Fin];
        CloseTaken(f, taken);
      case _ =>
        now := [];
        assert taken + now == taken;
    }
  }

  lemma CloseTaken(f: Flow, taken: seq<Token>)
    requires Took(f, taken)
    ensures Took(f.(halfClosed := true), taken + [Fin])
  {
    OctetsAppend(taken, [Fin]);
  }

  lemma HandleKeeps(n: Net, d: DataIn, j: nat)
    ensures j in Handle(n, d).0.tcp <==> j in n.tcp
    ensures j in n.tcp ==> Handle(n, d).0.tcp[j].socket == n.tcp[j].socket
  {
  }

  lemma SocketKept(n: Net, d: DataIn, j: nat)
    ensures j in IngestStep(n, d).tcp <==> j in n.tcp
    ensures j in n.tcp ==> IngestStep(n, d).tcp[j].socket == n.tcp[j].socket
  {
    hide Handle, Ids;
    HandleKeeps(n, d, j);
  }

  lemma IngestTakes(n: Net, d: DataIn, taken: seq<Token>) returns (took: seq<Token>)
    requires d.id in n.tcp && Took(n.tcp[d.id], taken)
    ensures var m := IngestStep(n, d);
            && d.id in m.tcp && Took(m.tcp[d.id], took)
            && took + Rest(m.backlog, d.id) == taken + Rest(n.backlog, d.id) + TokensOf(d)
  {
    hide Handle, Took, Tokens, Only;
    if d.id in Ids(n.backlog) {
      took := taken;
      RestAppend(n.backlog, [d], d.id);
      RestOne(d);
    } else {
      var now := HandleTakes(n, d, taken);
      var left := Waiting(Handle(n, d).1);
      took := taken + now;
      RestAppend(n.backlog, left, d.id);
      NoRest(n.backlog, d.id);
      assert took + Rest(left, d.id) == taken + (now + Rest(left, d.id));
    }
  }

  lemma NoRest(q: seq<DataIn>, j: nat)
    requires j !in Ids(q)
    ensures Rest(q, j) == []
  {
    OnlyIds(q, j);
  }

  lemma {:induction false} DrainTakes(n: Net, queue: seq<DataIn>, taken: seq<Token>, j: nat)
    returns (took: seq<Token>)
    requires j in n.tcp && Took(n.tcp[j], taken)
    ensures var m := DrainFrom(n, queue);
            && j in m.tcp && Took(m.tcp[j], took)
            && took + Rest(m.backlog, j) == taken + Rest(n.backlog, j) + Rest(queue, j)
    decreases |queue|
  {
    hide IngestStep, Took, Rest;
    if queue == [] {
      NoRest(queue, j);
      took := taken;
    } else {
      var d, rest := queue[0], queue[1..];
      var m := IngestStep(n, d);
      assert queue == [d] + rest;
      RestAppend([d], rest, j);
      RestOne(d);
      if d.id == j {
        var mid := IngestTakes(n, d, taken);
        took := DrainTakes(m, rest, mid, j);
      } else {
        IngestRest(n, d, j);
        took := DrainTakes(m, rest, taken, j);
      }
    }
  }

  lemma IngestRest(n: Net, d: DataIn, j: nat)
    requires d.id != j
    ensures Rest(IngestStep(n, d).backlog, j) == Rest(n.backlog, j)
    ensures Lookup(IngestStep(n, d).tcp, j) == Lookup(n.tcp, j)
  {
    IngestOther(n, d, j);
  }

  lemma {:induction false} DrainKeeps(n: Net, queue: seq<DataIn>, j: nat)
    ensures j in DrainFrom(n, queue).tcp <==> j in n.tcp
    ensures j in n.tcp ==> DrainFrom(n, queue).tcp[j].socket == n.tcp[j].socket
    decreases |queue|
  {
    hide IngestStep;
    if queue != [] {
      SocketKept(n, queue[0], j);
      DrainKeeps(IngestStep(n, queue[0]), queue[1..], j);
    }
  }

  lemma IngestConserves(n: Net, d: DataIn, heard: seq<Token>)
    requires Conserves(n, heard, d.id)
    ensures Conserves(IngestStep(n, d), heard + TokensOf(d), d.id)
  {
    hide IngestStep, Took, Rest;
    var j := d.id;
    SocketKept(n, d, j);
    if j in n.tcp && !n.tcp[j].socket.reset {
      var taken :| Took(n.tcp[j], taken) && heard == taken + Rest(n.backlog, j);
      var took := IngestTakes(n, d, taken);
    }
  }

  lemma DrainConserves(n: Net, heard: seq<Token>, j: nat)
    requires Conserves(n, heard, j)
    ensures Conserves(DrainStep(n), heard, j)
  {
    hide DrainFrom, Took, Rest;
    var start := n.(backlog := []);
    DrainKeeps(start, n.backlog, j);
    if j in n.tcp && !n.tcp[j].socket.reset {
      var taken :| Took(n.tcp[j], taken) && heard == taken + Rest(n.backlog, j);
      NoRest([], j);
      var took := DrainTakes(start, n.backlog, taken, j);
      assert taken + [] == taken;
    }
  }

  /** Whether `g` holds the same stream as `f`. */
  ghost predicate SameStream(f: Flow, g: Flow) {
    && g.socket.accepted + g.pending == f.socket.accepted + f.pending
    && g.halfClosed == f.halfClosed
  }

  lemma UplinkStream(f: Flow, pass: Pass)
    ensures SameStream(f, Uplink(f, pass)) && Uplink(f, pass).socket.reset == f.socket.reset
  {
    var sent := if pass.room < |f.pending| then pass.room else |f.pending|;
    assert f.pending == f.pending[..sent] + f.pending[sent..];
    assert f.socket.accepted + f.pending[..sent] + f.pending[sent..] == f.socket.accepted + f.pending;
  }

  lemma SettledStream(txBuf: nat, f: Flow, pass: Pass)
    ensures var g := Settled(txBuf, f, pass);
            !g.socket.reset ==> !f.socket.reset && SameStream(f, g)
  {
    hide Uplink, Draining, NewStall, StallsBefore;
    UplinkStream(f, pass);
  }

  lemma EndedStream(linger: Time, f: Flow, pass: Pass)
    ensures var r := Ended(linger, f, pass);
            r.Some? && !r.value.socket.reset ==> !f.socket.reset && SameStream(f, r.value)
  {
    hide CloseTo, Elapsed;
  }

  /** A service pass takes nothing from a stream and adds nothing: it moves octets from `pending` into
      the socket. A flow that comes out of it not reset came into it not reset. */
  lemma ServicedStream(txBuf: nat, linger: Time, f: Flow, pass: Pass)
    ensures var r := Serviced(txBuf, linger, f, pass);
            r.Some? && !r.value.socket.reset ==> !f.socket.reset && SameStream(f, r.value)
  {
    hide Settled, Ended;
    var p := Polled(f, pass);
    var connected := p.socket.phase == Established || p.socket.phase == CloseWait;
    var g := if connected then p.(established := true) else p;
    SettledStream(txBuf, g, pass);
    EndedStream(linger, Settled(txBuf, g, pass), pass);
  }

  lemma ReapConserves(n: Net, now: Time, heard: seq<Token>, j: nat)
    requires Conserves(n, heard, j)
    ensures Conserves(ReapStep(n, now), heard, j)
  {
    hide Took;
    OnlyWithout(n.backlog, DeadIds(n, now), j);
  }

  /** The flows and the backlog know only ids that were given out. */
  ghost predicate Issued(n: Net) {
    (forall id | id in n.tcp :: id < n.nextId) && (forall d | d in n.backlog :: d.id < n.nextId)
  }

  /** The app side can only name flows the stack has given it. */
  ghost predicate Lawful(n: Net, e: Event) { e.Ingest? ==> e.d.id < n.nextId }

  ghost predicate LawfulRun(n: Net, events: seq<Event>)
    decreases |events|
  {
    events == [] ||
    (LawfulRun(n, events[..|events| - 1]) && Lawful(Run(n, events[..|events| - 1]), events[|events| - 1]))
  }

  lemma IssuedIngest(n: Net, d: DataIn)
    requires Issued(n) && d.id < n.nextId
    ensures Issued(IngestStep(n, d)) && IngestStep(n, d).nextId == n.nextId
  {
  }

  lemma {:induction false} IssuedDrain(n: Net, queue: seq<DataIn>)
    requires Issued(n) && forall d | d in queue :: d.id < n.nextId
    ensures Issued(DrainFrom(n, queue)) && DrainFrom(n, queue).nextId == n.nextId
    decreases |queue|
  {
    hide IngestStep;
    if queue != [] {
      IssuedIngest(n, queue[0]);
      IssuedDrain(IngestStep(n, queue[0]), queue[1..]);
    }
  }

  lemma {:induction false} WithoutIn(q: seq<DataIn>, dead: set<nat>, d: DataIn)
    ensures d in Without(q, dead) ==> d in q
  {
    if q != [] {
      WithoutIn(q[1..], dead, d);
    }
  }

  lemma IssuedStep(n: Net, e: Event)
    requires Issued(n) && Lawful(n, e)
    ensures Issued(Step(n, e))
  {
    hide Serviced, IngestStep;
    match e
    case Ingest(d) => IssuedIngest(n, d);
    case DrainBacklog => IssuedDrain(n.(backlog := []), n.backlog);
    case Reap(now) =>
      forall d | d in Without(n.backlog, DeadIds(n, now))
        ensures d.id < n.nextId
      {
        WithoutIn(n.backlog, DeadIds(n, now), d);
      }
    case _ =>
  }

  lemma {:induction false} HeardLate(n: Net, events: seq<Event>, j: nat)
    requires LawfulRun(n, events) && j >= Run(n, events).nextId
    ensures Heard(events, j) == []
    decreases |events|
  {
    hide Step;
    if events != [] {
      var init, last := events[..|events| - 1], events[|events| - 1];
      IdsGrow(Run(n, init), last);
      HeardLate(n, init, j);
    }
  }

  lemma IdsGrow(n: Net, e: Event)
    ensures Step(n, e).nextId >= n.nextId
  {
    hide Serviced, IngestStep;
    if e.DrainBacklog? {
      DrainIds(n.(backlog := []), n.backlog);
    }
    if e.Ingest? {
      IngestIds(n, e.d);
    }
  }

  lemma IngestIds(n: Net, d: DataIn)
    ensures IngestStep(n, d).nextId == n.nextId
  {
  }

  lemma {:induction false} DrainIds(n: Net, queue: seq<DataIn>)
    ensures DrainFrom(n, queue).nextId == n.nextId
    decreases |queue|
  {
    hide IngestStep;
    if queue != [] {
      IngestIds(n, queue[0]);
      DrainIds(IngestStep(n, queue[0]), queue[1..]);
    }
  }

  lemma StepConserves(n: Net, e: Event, heard: seq<Token>, j: nat)
    requires Issued(n) && Lawful(n, e) && Conserves(n, heard, j)
    requires j >= n.nextId ==> heard == []
    ensures Conserves(Step(n, e), heard + if e.Ingest? && e.d.id == j then TokensOf(e.d) else [], j)
  {
    hide ServiceStep, IngestStep, DrainStep, ReapStep, Rest;
    assert heard + [] == heard;
    match e
    case Ingest(d) =>
      if d.id == j {
        IngestConserves(n, d, heard);
      } else {
        IngestRest(n, d, j);
      }
    case DrainBacklog => DrainConserves(n, heard, j);
    case Service(id, pass) => ServiceConserves(n, id, pass, heard, j);
    case Reap(now) => ReapConserves(n, now, heard, j);
    case Open(carrier, now) =>
      if j == n.nextId {
        NoRest(n.backlog, j);
        assert Took(NewFlow(carrier, now, n.connectFor), []);
      }
    case _ =>
  }

  lemma ServiceConserves(n: Net, id: nat, pass: Pass, heard: seq<Token>, j: nat)
    requires Conserves(n, heard, j)
    ensures Conserves(ServiceStep(n, id, pass), heard, j)
  {
    hide Serviced, Rest, Octets;
    if id == j && j in n.tcp {
      ServicedStream(n.txBuf, n.orphanLinger, n.tcp[j], pass);
      if !n.tcp[j].socket.reset {
        var taken :| Took(n.tcp[j], taken) && heard == taken + Rest(n.backlog, j);
        var r := Serviced(n.txBuf, n.orphanLinger, n.tcp[j], pass);
        assert r.Some? && !r.value.socket.reset ==> Took(r.value, taken);
      }
    }
  }

  /** Stream conservation over every run: for a flow that is there and was not reset, the socket's
      octets, then `pending`, then the flow's backlog are all the octets handed in for it, in order;
      and it is half-closed exactly when a close it was handed has left the backlog behind every octet
      that came before it. */
  lemma {:induction false} StreamConserved(n: Net, events: seq<Event>, j: nat)
    requires Fresh(n) && LawfulRun(n, events)
    ensures Issued(Run(n, events))
    ensures Conserves(Run(n, events), Heard(events, j), j)
    decreases |events|
  {
    hide Step;
    if events != [] {
      var init, last := events[..|events| - 1], events[|events| - 1];
      StreamConserved(n, init, j);
      IssuedStep(Run(n, init), last);
      if j >= Run(n, init).nextId {
        HeardLate(n, init, j);
      }
      StepConserves(Run(n, init), last, Heard(init, j), j);
    }
  }

  /** The same, said of the octets alone. */
  lemma OctetsConserved(n: Net, events: seq<Event>, j: nat)
    requires Fresh(n) && LawfulRun(n, events)
    requires j in Run(n, events).tcp && !Run(n, events).tcp[j].socket.reset
    ensures var m := Run(n, events);
            m.tcp[j].socket.accepted + m.tcp[j].pending + Octets(Rest(m.backlog, j))
            == Octets(Heard(events, j))
  {
    hide Run, Rest;
    StreamConserved(n, events, j);
    var m := Run(n, events);
    var taken :| Took(m.tcp[j], taken) && Heard(events, j) == taken + Rest(m.backlog, j);
    OctetsAppend(taken, Rest(m.backlog, j));
  }
}
