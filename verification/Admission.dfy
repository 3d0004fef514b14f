/** The app side in front of the stack: the writers, the channel they share, and the credit that
    makes each wait. Senders that wait for room in the channel stand at its end. */
module Admission {
  import opened Bytes
  import opened Net
  import opened Conservation
  import opened Liveness

  /** The stack, the channel in front of it, and the stack's events so far. */
  datatype World = World(net: Net, chan: seq<DataIn>, log: seq<Event>)

  datatype Move =
    | Write(id: nat, data: seq<Byte>, timedOut: bool)
    | Post(d: DataIn)
    | Recv
    | Loop(e: Event)

  /** Whether the gate lets a writer add `len` octets. */
  predicate Admits(c: Credit, len: nat) {
    c.closed || Outstanding(c) == 0 || Outstanding(c) + len <= c.cap
  }

  function MoveStep(w: World, m: Move): World {
    match m
    case Write(id, data, _) =>
      World(Step(w.net, Admit(id, |data|)), w.chan + [Tcp(id, data)], w.log + [Admit(id, |data|)])
    case Post(d) => w.(chan := w.chan + [d])
    case Recv =>
      if w.chan == [] then w
      else World(Step(w.net, Ingest(w.chan[0])), w.chan[1..], w.log + [Ingest(w.chan[0])])
    case Loop(e) => World(Step(w.net, e), w.chan, w.log + [e])
  }

  /** What the program does: a writer goes on when its gate lets it or its wait is over, only the loop
      takes from the channel, and only while the backlog is below its bound. */
  ghost predicate Permitted(w: World, m: Move) {
    match m
    case Write(id, data, timedOut) =>
      id < w.net.nextId && (id in w.net.tcp && !timedOut ==> Admits(w.net.tcp[id].credit, |data|))
    case Post(d) => d.id < w.net.nextId && !d.Tcp?
    case Recv => TotalSize(w.net.backlog) < MAX_BACKLOG_BYTES
    case Loop(e) => !e.Ingest? && !e.Admit?
  }

  function Moves(w: World, moves: seq<Move>): World
    decreases |moves|
  {
    if moves == [] then w else MoveStep(Moves(w, moves[..|moves| - 1]), moves[|moves| - 1])
  }

  ghost predicate PermittedRun(w: World, moves: seq<Move>)
    decreases |moves|
  {
    moves == [] ||
    (PermittedRun(w, moves[..|moves| - 1]) && Permitted(Moves(w, moves[..|moves| - 1]), moves[|moves| - 1]))
  }

  function OctetsIn(q: seq<DataIn>, j: nat): nat { |Octets(Rest(q, j))| }

  lemma OctetsInAppend(a: seq<DataIn>, b: seq<DataIn>, j: nat)
    ensures OctetsIn(a + b, j) == OctetsIn(a, j) + OctetsIn(b, j)
  {
    RestAppend(a, b, j);
    OctetsAppend(Rest(a, j), Rest(b, j));
  }

  lemma OctetsInOne(d: DataIn, j: nat)
    ensures OctetsIn([d], j) == if d.id == j then |Octets(TokensOf(d))| else 0
    ensures d.Tcp? ==> |Octets(TokensOf(d))| == |d.data|
    ensures !d.Tcp? ==> Octets(TokensOf(d)) == []
  {
    RestOne(d);
    if d.Tcp? {
      OctetsOfData(d.data);
    }
  }

  /** The octets the process holds for flow `j`. */
  function Held(w: World, j: nat): nat
    requires j in w.net.tcp
  {
    var f := w.net.tcp[j];
    OctetsIn(w.chan, j) + OctetsIn(w.net.backlog, j) + |f.pending| + Unacked(f.socket)
  }

  /** What the credit of `j` counts: every octet written and not yet handed in, and every one handed in. */
  ghost predicate Counts(w: World, j: nat) {
    j in w.net.tcp ==>
      var f := w.net.tcp[j];
      && f.credit.sent == OctetsIn(w.chan, j) + |Octets(Heard(w.log, j))|
      && f.credit.acked <= f.socket.acked <= |f.socket.accepted|
      && (f.credit.closed ==> f.socket.reset)
      && 49_152 <= f.credit.cap <= Ceiling(w.net.txBuf)
  }

  /** The channel names only flows that were given out. */
  ghost predicate Sound(w: World, n: Net) {
    && LawfulRun(n, w.log) && w.net == Run(n, w.log)
    && forall d | d in w.chan :: d.id < w.net.nextId
  }

  lemma LogStep(n: Net, log: seq<Event>, e: Event)
    requires LawfulRun(n, log) && Lawful(Run(n, log), e)
    ensures LawfulRun(n, log + [e]) && Run(n, log + [e]) == Step(Run(n, log), e)
    ensures forall j :: Heard(log + [e], j) == Heard(log, j) + if e.Ingest? && e.d.id == j then TokensOf(e.d) else []
  {
    hide Step;
    assert (log + [e])[..|log|] == log;
  }

  lemma SoundStep(w: World, n: Net, m: Move)
    requires Sound(w, n) && Permitted(w, m)
    ensures Sound(MoveStep(w, m), n)
  {
    hide Step, Run;
    match m
    case Write(id, data, _) =>
      LogStep(n, w.log, Admit(id, |data|));
      IdsGrow(w.net, Admit(id, |data|));
    case Post(d) =>
    case Recv =>
      if w.chan != [] {
        assert w.chan[0] in w.chan;
        LogStep(n, w.log, Ingest(w.chan[0]));
        IdsGrow(w.net, Ingest(w.chan[0]));
      }
    case Loop(e) =>
      LogStep(n, w.log, e);
      IdsGrow(w.net, e);
  }

  /** Whether `g`'s credit and acknowledgements follow from `f`'s without a new admission. */
  ghost predicate Follows(f: Flow, g: Flow, txBuf: nat) {
    && g.credit.sent == f.credit.sent
    && f.credit.acked <= g.credit.acked
    && f.socket.acked <= g.socket.acked
    && (f.credit.acked <= f.socket.acked <= |f.socket.accepted| ==>
          g.credit.acked <= g.socket.acked <= |g.socket.accepted|)
    && ((f.credit.closed ==> f.socket.reset) ==> (g.credit.closed ==> g.socket.reset))
    && (f.credit.cap == g.credit.cap || MIN_FLOW_QUEUE_BYTES <= g.credit.cap <= Ceiling(txBuf))
  }

  lemma UplinkCredit(f: Flow, pass: Pass)
    ensures var g := Uplink(f, pass);
            g.credit == f.credit && g.socket.acked == f.socket.acked && g.socket.reset == f.socket.reset
            && |g.socket.accepted| >= |f.socket.accepted|
  {
  }

  lemma CheckCredit(f: Flow, now: Time)
    ensures DrainCheck(f, now).credit == f.credit && DrainCheck(f, now).socket == f.socket
  {
    hide Draining, NewStall, StallsBefore;
  }

  lemma MeasuredFollows(txBuf: nat, f: Flow, pass: Pass)
    ensures var g := Measured(txBuf, f, pass);
            Follows(f, g, txBuf) && (f.credit.acked <= f.socket.acked ==> g.credit.acked == g.socket.acked)
  {
    hide Uplink, DrainCheck;
    UplinkCredit(f, pass);
    CheckCredit(Uplink(f, pass), pass.now);
  }

  lemma SettledFollows(txBuf: nat, f: Flow, pass: Pass)
    ensures Follows(f, Settled(txBuf, f, pass), txBuf)
  {
    hide Measured, Flaps, HalfClose, Uplink;
    MeasuredFollows(txBuf, f, pass);
    HalfCloseCredit(Flapped(txBuf, f, pass));
  }

  lemma HalfCloseCredit(f: Flow)
    ensures var g := HalfClose(f);
            g.credit == f.credit && g.socket.acked == f.socket.acked && g.socket.accepted == f.socket.accepted
            && g.socket.reset == f.socket.reset
  {
    hide CloseTo;
  }

  lemma EndedFollows(linger: Time, txBuf: nat, f: Flow, pass: Pass)
    ensures var r := Ended(linger, f, pass); r.Some? ==> Follows(f, r.value, txBuf)
  {
    hide CloseTo, Elapsed;
  }

  lemma PolledFollows(f: Flow, pass: Pass, txBuf: nat)
    ensures Follows(f, Polled(f, pass), txBuf) && Follows(f, Polled(f, pass).(established := true), txBuf)
  {
  }

  lemma ServicedFollows(txBuf: nat, linger: Time, f: Flow, pass: Pass)
    ensures var r := Serviced(txBuf, linger, f, pass); r.Some? ==> Follows(f, r.value, txBuf)
  {
    hide Settled, Ended, Serviced, Polled;
    ServicedChecked(txBuf, linger, f, pass);
    PolledFollows(f, pass, txBuf);
    var g := Polled(f, pass).(established := true);
    SettledFollows(txBuf, g, pass);
    EndedFollows(linger, txBuf, Settled(txBuf, g, pass), pass);
  }

  lemma {:induction false} DrainCredit(n: Net, queue: seq<DataIn>, j: nat)
    ensures j in DrainFrom(n, queue).tcp <==> j in n.tcp
    ensures j in n.tcp ==>
              var f, g := n.tcp[j], DrainFrom(n, queue).tcp[j]; g.credit == f.credit && g.socket == f.socket
    decreases |queue|
  {
    hide IngestStep;
    if queue != [] {
      IngestCredit(n, queue[0], j);
      DrainCredit(IngestStep(n, queue[0]), queue[1..], j);
    }
  }

  lemma IngestCredit(n: Net, d: DataIn, j: nat)
    ensures j in IngestStep(n, d).tcp <==> j in n.tcp
    ensures j in n.tcp ==>
              var f, g := n.tcp[j], IngestStep(n, d).tcp[j]; g.credit == f.credit && g.socket == f.socket
  {
  }

  lemma {:induction false} DrainTxBuf(n: Net, queue: seq<DataIn>)
    ensures DrainFrom(n, queue).txBuf == n.txBuf && DrainFrom(n, queue).maxPending == n.maxPending
    decreases |queue|
  {
    hide IngestStep;
    if queue != [] {
      IngestTxBuf(n, queue[0]);
      DrainTxBuf(IngestStep(n, queue[0]), queue[1..]);
    }
  }

  lemma IngestTxBuf(n: Net, d: DataIn)
    ensures IngestStep(n, d).txBuf == n.txBuf && IngestStep(n, d).maxPending == n.maxPending
  {
  }

  lemma StepTxBuf(n: Net, e: Event)
    ensures Step(n, e).txBuf == n.txBuf && Step(n, e).maxPending == n.maxPending
  {
    hide Serviced, IngestStep, DrainFrom;
    match e
    case Ingest(d) => IngestTxBuf(n, d);
    case DrainBacklog => DrainTxBuf(n.(backlog := []), n.backlog);
    case _ =>
  }

  /** An event other than an admission moves a flow's credit only by what the peer acknowledges. */
  lemma StepFollows(n: Net, e: Event, j: nat)
    requires !e.Admit? && j in Step(n, e).tcp && j in n.tcp && j < n.nextId
    ensures Follows(n.tcp[j], Step(n, e).tcp[j], n.txBuf)
  {
    hide Serviced, IngestStep, DrainFrom;
    match e
    case Ingest(d) => IngestCredit(n, d, j);
    case DrainBacklog => DrainCredit(n.(backlog := []), n.backlog, j);
    case Service(id, pass) => ServicedFollows(n.txBuf, n.orphanLinger, n.tcp[j], pass);
    case _ =>
  }

  lemma LoopCounts(w: World, n: Net, e: Event, j: nat)
    requires Fresh(n) && Sound(w, n) && Counts(w, j) && !e.Ingest? && !e.Admit?
    ensures Counts(MoveStep(w, Loop(e)), j)
  {
    hide Step, Run, OctetsIn, Heard, Counts, LawfulRun;
    StreamConserved(n, w.log, j);
    LogStep(n, w.log, e);
    assert Heard(w.log, j) + [] == Heard(w.log, j);
    if j in Step(w.net, e).tcp {
      if j in w.net.tcp {
        KeptCounts(w, e, j);
      } else {
        OpensOnly(w.net, e, j);
        HeardLate(n, w.log, j);
        NotIn(w.chan, j, w.net.nextId);
        OpenCounts(w, e, j);
      }
    } else {
      GoneCounts(MoveStep(w, Loop(e)), j);
    }
  }

  lemma GoneCounts(w: World, j: nat)
    requires j !in w.net.tcp
    ensures Counts(w, j)
  {
  }

  lemma KeptCounts(w: World, e: Event, j: nat)
    requires Counts(w, j) && !e.Admit? && j in w.net.tcp && j in Step(w.net, e).tcp && j < w.net.nextId
    requires Heard(w.log + [e], j) == Heard(w.log, j)
    ensures Counts(World(Step(w.net, e), w.chan, w.log + [e]), j)
  {
    hide Step, OctetsIn, Heard, Octets;
    StepTxBuf(w.net, e);
    StepFollows(w.net, e, j);
  }

  lemma OpenCounts(w: World, e: Event, j: nat)
    requires e.Open? && j in Step(w.net, e).tcp && Step(w.net, e).tcp[j] == NewFlow(e.carrier, e.now, w.net.connectFor)
    requires Heard(w.log + [e], j) == [] && OctetsIn(w.chan, j) == 0
    ensures Counts(World(Step(w.net, e), w.chan, w.log + [e]), j)
  {
    hide Step, OctetsIn, Heard;
    EmptyOctets();
  }

  lemma EmptyOctets()
    ensures Octets([]) == []
  {
  }

  lemma NotIn(q: seq<DataIn>, j: nat, bound: nat)
    requires j >= bound && forall d | d in q :: d.id < bound
    ensures OctetsIn(q, j) == 0
  {
    assert j !in Ids(q);
    NoRest(q, j);
    EmptyOctets();
  }

  lemma WriteCounts(w: World, n: Net, m: Move, j: nat)
    requires Sound(w, n) && Counts(w, j) && m.Write? && Permitted(w, m)
    ensures Counts(MoveStep(w, m), j)
  {
    hide Step, Run, Octets, OctetsIn, LawfulRun, Heard, Ceiling, TokensOf;
    AdmitOnly(w.net, m.id, |m.data|, j);
    LogStep(n, w.log, Admit(m.id, |m.data|));
    OctetsInAppend(w.chan, [Tcp(m.id, m.data)], j);
    OctetsInOne(Tcp(m.id, m.data), j);
    assert Heard(w.log, j) + [] == Heard(w.log, j);
  }

  lemma PostCounts(w: World, d: DataIn, j: nat)
    requires Counts(w, j) && !d.Tcp?
    ensures Counts(w.(chan := w.chan + [d]), j)
  {
    hide Octets, OctetsIn, Heard, Ceiling, TokensOf;
    OctetsInAppend(w.chan, [d], j);
    OctetsInOne(d, j);
  }

  lemma MoveCounts(w: World, n: Net, m: Move, j: nat)
    requires Fresh(n) && Sound(w, n) && Counts(w, j) && Permitted(w, m)
    ensures Counts(MoveStep(w, m), j)
  {
    hide Step, Counts, Sound;
    match m
    case Write(_, _, _) => WriteCounts(w, n, m, j);
    case Post(d) => PostCounts(w, d, j);
    case Recv =>
      if w.chan != [] {
        RecvCounts(w, n, j);
      }
    case Loop(e) => LoopCounts(w, n, e, j);
  }

  lemma RecvCounts(w: World, n: Net, j: nat)
    requires Fresh(n) && Sound(w, n) && Counts(w, j) && w.chan != []
    ensures Counts(MoveStep(w, Recv), j)
  {
    hide Run, Octets, OctetsIn, IngestStep, Tokens, TokensOf, Heard, Ceiling, LawfulRun;
    var d, rest := w.chan[0], w.chan[1..];
    assert d in w.chan && w.chan == [d] + rest;
    LogStep(n, w.log, Ingest(d));
    OctetsInAppend([d], rest, j);
    OctetsInOne(d, j);
    IngestCredit(w.net, d, j);
    IngestTxBuf(w.net, d);
    OctetsAppend(Heard(w.log, j), TokensOf(d));
    assert Heard(w.log, j) + [] == Heard(w.log, j);
  }

  /** The octets of `j` a world counts, over every run of it. */
  lemma {:induction false} RunCounts(n: Net, moves: seq<Move>, j: nat)
    requires Fresh(n) && PermittedRun(World(n, [], []), moves)
    ensures Sound(Moves(World(n, [], []), moves), n) && Counts(Moves(World(n, [], []), moves), j)
    decreases |moves|
  {
    hide MoveStep, Counts;
    var w := World(n, [], []);
    if moves == [] {
      assert Counts(w, j) by { FreshCounts(n, j); }
    } else {
      var init, last := moves[..|moves| - 1], moves[|moves| - 1];
      RunCounts(n, init, j);
      SoundStep(Moves(w, init), n, last);
      MoveCounts(Moves(w, init), n, last, j);
    }
  }

  lemma FreshCounts(n: Net, j: nat)
    requires Fresh(n)
    ensures Counts(World(n, [], []), j)
  {
  }

  /** Credit accounting: in every reachable world the outstanding count of a flow that was not reset
      is exactly what the process holds for it, plus what the peer has acknowledged since the last
      publication. */
  lemma OutstandingIsHeld(n: Net, moves: seq<Move>, j: nat)
    requires Fresh(n) && PermittedRun(World(n, [], []), moves)
    requires var w := Moves(World(n, [], []), moves); j in w.net.tcp && !w.net.tcp[j].socket.reset
    ensures var w := Moves(World(n, [], []), moves);
            var f := w.net.tcp[j];
            && f.credit.acked <= f.socket.acked
            && Outstanding(f.credit) == Held(w, j) + (f.socket.acked - f.credit.acked)
  {
    hide Moves, Run, Octets;
    var w := Moves(World(n, [], []), moves);
    RunCounts(n, moves, j);
    OctetsConserved(n, w.log, j);
    var f := w.net.tcp[j];
    assert |f.socket.accepted| + |f.pending| + OctetsIn(w.net.backlog, j) == |Octets(Heard(w.log, j))|;
  }

  /** A pass that comes to its publication leaves nothing unpublished, and the budget it publishes is the one
      wanted, but no less than 48 KB and no more than the send buffer, where that is more. */
  lemma PublishedExactly(txBuf: nat, linger: Time, f: Flow, pass: Pass)
    requires f.credit.acked <= f.socket.acked <= |f.socket.accepted|
    requires Look(f, pass).Some? && Serviced(txBuf, linger, f, pass).Some?
    ensures var g := Serviced(txBuf, linger, f, pass).value;
            && g.credit.acked == g.socket.acked
            && g.credit.cap == (if pass.wanted <= 49_152 || txBuf <= 49_152 then 49_152
                                else if pass.wanted <= txBuf then pass.wanted else txBuf)
  {
    hide Settled, Ended, Serviced, Polled;
    ServicedChecked(txBuf, linger, f, pass);
    PolledFollows(f, pass, txBuf);
    var g := Polled(f, pass).(established := true);
    SettledPublishes(txBuf, g, pass);
    EndedPublishes(linger, Settled(txBuf, g, pass), pass);
  }

  /** Right after a pass of `j` that publishes, what is outstanding of `j` is exactly what the process
      holds for it, over every run. */
  lemma HeldOncePublished(n: Net, moves: seq<Move>, j: nat, pass: Pass)
    requires Fresh(n) && PermittedRun(World(n, [], []), moves + [Loop(Service(j, pass))])
    requires var w := Moves(World(n, [], []), moves); j in w.net.tcp && Look(w.net.tcp[j], pass).Some?
    requires var v := Moves(World(n, [], []), moves + [Loop(Service(j, pass))]);
             j in v.net.tcp && !v.net.tcp[j].socket.reset
    ensures var v := Moves(World(n, [], []), moves + [Loop(Service(j, pass))]);
            Outstanding(v.net.tcp[j].credit) == Held(v, j)
  {
    hide Held, Outstanding, Look, Serviced, PermittedRun, Sound, OctetsIn;
    var all := moves + [Loop(Service(j, pass))];
    assert all[..|all| - 1] == moves;
    PermittedBefore(n, all);
    var w := Moves(World(n, [], []), moves);
    RunCounts(n, moves, j);
    PublishedExactly(w.net.txBuf, w.net.orphanLinger, w.net.tcp[j], pass);
    OutstandingIsHeld(n, all, j);
  }

  lemma PermittedBefore(n: Net, moves: seq<Move>)
    requires moves != [] && PermittedRun(World(n, [], []), moves)
    ensures PermittedRun(World(n, [], []), moves[..|moves| - 1])
  {
  }

  lemma SettledPublishes(txBuf: nat, f: Flow, pass: Pass)
    requires f.credit.acked <= f.socket.acked
    ensures var g := Settled(txBuf, f, pass);
            && g.credit.acked == g.socket.acked
            && g.credit.cap == (if pass.wanted <= 49_152 || txBuf <= 49_152 then 49_152
                                else if pass.wanted <= txBuf then pass.wanted else txBuf)
  {
    hide Measured, Flaps, CloseTo;
    MeasuredFollows(txBuf, f, pass);
    MeasuredBudget(txBuf, f, pass);
  }

  lemma MeasuredBudget(txBuf: nat, f: Flow, pass: Pass)
    ensures Measured(txBuf, f, pass).credit.cap ==
            if pass.wanted <= 49_152 || txBuf <= 49_152 then 49_152
            else if pass.wanted <= txBuf then pass.wanted else txBuf
  {
    hide Uplink, Draining, NewStall, StallsBefore;
  }

  lemma EndedPublishes(linger: Time, f: Flow, pass: Pass)
    ensures var r := Ended(linger, f, pass);
            r.Some? ==> r.value.credit == f.credit && r.value.socket.acked == f.socket.acked
  {
    hide CloseTo, Elapsed;
  }

  // ---- Admission ----

  /** No write of `j` waits its time out, and none is larger than `largest`. */
  ghost predicate Patient(moves: seq<Move>, j: nat, largest: nat) {
    forall m | m in moves && m.Write? && m.id == j :: !m.timedOut && |m.data| <= largest
  }

  ghost predicate Bounded(w: World, j: nat, largest: nat) {
    j in w.net.tcp && !w.net.tcp[j].socket.reset ==>
      Outstanding(w.net.tcp[j].credit) <= if largest > Ceiling(w.net.txBuf) then largest else Ceiling(w.net.txBuf)
  }

  lemma MoveBounded(w: World, n: Net, m: Move, j: nat, largest: nat)
    requires Fresh(n) && Sound(w, n) && Counts(w, j) && Permitted(w, m) && Bounded(w, j, largest)
    requires m.Write? && m.id == j ==> !m.timedOut && |m.data| <= largest
    ensures Bounded(MoveStep(w, m), j, largest)
  {
    hide Step, Run, OctetsIn, Heard;
    match m
    case Write(id, data, _) => AdmitOnly(w.net, id, |data|, j);
    case Post(d) =>
    case Recv =>
      if w.chan != [] {
        EventBounded(w, n, Ingest(w.chan[0]), j, largest);
      }
    case Loop(e) => EventBounded(w, n, e, j, largest);
  }

  lemma AdmitOnly(n: Net, id: nat, len: nat, j: nat)
    ensures var m := Step(n, Admit(id, len));
            && m.txBuf == n.txBuf && (j in m.tcp <==> j in n.tcp)
            && (j in n.tcp ==> m.tcp[j].socket == n.tcp[j].socket
                               && m.tcp[j].credit ==
                                  if id == j then n.tcp[j].credit.(sent := n.tcp[j].credit.sent + len)
                                  else n.tcp[j].credit)
  {
  }

  lemma EventBounded(w: World, n: Net, e: Event, j: nat, largest: nat)
    requires Fresh(n) && Sound(w, n) && Bounded(w, j, largest) && !e.Admit?
    ensures Bounded(World(Step(w.net, e), w.chan, w.log), j, largest)
  {
    hide Step, Run;
    StepTxBuf(w.net, e);
    StreamConserved(n, w.log, j);
    if j in Step(w.net, e).tcp {
      if j in w.net.tcp {
        StepFollows(w.net, e, j);
        StepReset(w.net, e, j);
      } else {
        OpensOnly(w.net, e, j);
      }
    }
  }

  lemma StepReset(n: Net, e: Event, j: nat)
    requires !e.Admit? && j in n.tcp && j in Step(n, e).tcp && j < n.nextId
    ensures n.tcp[j].socket.reset ==> Step(n, e).tcp[j].socket.reset
  {
    hide Serviced, IngestStep, DrainFrom;
    match e
    case Ingest(d) => IngestCredit(n, d, j);
    case DrainBacklog => DrainCredit(n.(backlog := []), n.backlog, j);
    case Service(id, pass) => ServicedStream(n.txBuf, n.orphanLinger, n.tcp[j], pass);
    case _ =>
  }

  /** Admission: in every reachable world in which no wait of the flow's writer ran out, the
      outstanding count never exceeds the larger of the socket's buffer, 48 KB and the largest write. */
  lemma {:induction false} OutstandingBounded(n: Net, moves: seq<Move>, j: nat, largest: nat)
    requires Fresh(n) && PermittedRun(World(n, [], []), moves) && Patient(moves, j, largest)
    ensures Bounded(Moves(World(n, [], []), moves), j, largest)
    decreases |moves|
  {
    hide MoveStep, Run;
    if moves != [] {
      var init, last := moves[..|moves| - 1], moves[|moves| - 1];
      assert last in moves && forall m | m in init :: m in moves;
      OutstandingBounded(n, init, j, largest);
      RunCounts(n, init, j);
      MoveBounded(Moves(World(n, [], []), init), n, last, j, largest);
    }
  }

  // ---- Memory ----

  lemma {:induction false} TotalAppend(a: seq<DataIn>, b: seq<DataIn>)
    ensures TotalSize(a + b) == TotalSize(a) + TotalSize(b)
  {
    if a == [] {
      assert a + b == b;
    } else {
      TotalAppend(a[1..], b);
      assert (a + b)[1..] == a[1..] + b;
    }
  }

  lemma {:induction false} TotalWithout(q: seq<DataIn>, dead: set<nat>)
    ensures TotalSize(Without(q, dead)) <= TotalSize(q)
  {
    if q != [] {
      TotalWithout(q[1..], dead);
      TotalAppend(if q[0].id in dead then [] else [q[0]], Without(q[1..], dead));
    }
  }

  lemma IngestTotal(n: Net, d: DataIn)
    ensures TotalSize(IngestStep(n, d).backlog) <= TotalSize(n.backlog) + Size(d)
  {
    TotalAppend(n.backlog, [d]);
    TotalAppend(n.backlog, Waiting(Handle(n, d).1));
  }

  lemma {:induction false} DrainTotal(n: Net, queue: seq<DataIn>)
    ensures TotalSize(DrainFrom(n, queue).backlog) <= TotalSize(n.backlog) + TotalSize(queue)
    decreases |queue|
  {
    hide IngestStep;
    if queue != [] {
      IngestTotal(n, queue[0]);
      DrainTotal(IngestStep(n, queue[0]), queue[1..]);
    }
  }

  ghost predicate PendingFits(n: Net) { forall id | id in n.tcp :: |n.tcp[id].pending| <= n.maxPending }

  lemma IngestFits(n: Net, d: DataIn)
    requires PendingFits(n)
    ensures PendingFits(IngestStep(n, d))
  {
  }

  lemma {:induction false} DrainFits(n: Net, queue: seq<DataIn>)
    requires PendingFits(n)
    ensures PendingFits(DrainFrom(n, queue))
    decreases |queue|
  {
    hide IngestStep;
    if queue != [] {
      IngestFits(n, queue[0]);
      DrainFits(IngestStep(n, queue[0]), queue[1..]);
    }
  }

  lemma SettledShrinks(txBuf: nat, f: Flow, pass: Pass)
    ensures |Settled(txBuf, f, pass).pending| <= |f.pending|
  {
    hide Uplink, DrainCheck, Flaps, CloseTo, Budget;
    UplinkShrinks(f, pass);
  }

  lemma UplinkShrinks(f: Flow, pass: Pass)
    ensures forall now :: |DrainCheck(Uplink(f, pass), now).pending| <= |f.pending|
  {
    hide Draining, NewStall, StallsBefore;
  }

  lemma ServicedShrinks(txBuf: nat, linger: Time, f: Flow, pass: Pass)
    ensures var r := Serviced(txBuf, linger, f, pass); r.Some? ==> |r.value.pending| <= |f.pending|
  {
    hide Settled, Serviced, CloseTo, Elapsed;
    ServicedChecked(txBuf, linger, f, pass);
    SettledShrinks(txBuf, Polled(f, pass).(established := true), pass);
  }

  lemma StepFits(n: Net, e: Event)
    requires PendingFits(n)
    ensures PendingFits(Step(n, e))
  {
    hide Serviced, IngestStep, DrainFrom;
    match e
    case Ingest(d) => IngestFits(n, d);
    case DrainBacklog => DrainFits(n.(backlog := []), n.backlog);
    case Service(id, pass) =>
      if id in n.tcp {
        ServicedShrinks(n.txBuf, n.orphanLinger, n.tcp[id], pass);
      }
    case _ =>
  }

  lemma StepTotal(n: Net, e: Event)
    requires !e.Ingest?
    ensures TotalSize(Step(n, e).backlog) <= TotalSize(n.backlog)
  {
    hide Serviced, IngestStep, DrainFrom;
    match e
    case DrainBacklog => DrainTotal(n.(backlog := []), n.backlog);
    case Reap(now) => TotalWithout(n.backlog, DeadIds(n, now));
    case _ =>
  }

  /** No message is larger than `largest`. */
  ghost predicate Small(q: seq<DataIn>, largest: nat) { forall d | d in q :: Size(d) <= largest }

  ghost predicate SmallMoves(moves: seq<Move>, largest: nat) {
    forall m | m in moves :: (m.Write? ==> |m.data| <= largest) && (m.Post? ==> Size(m.d) <= largest)
  }

  lemma MoveMemory(w: World, m: Move, largest: nat)
    requires Permitted(w, m) && Small(w.chan, largest) && PendingFits(w.net)
    requires TotalSize(w.net.backlog) < MAX_BACKLOG_BYTES + largest
    requires (m.Write? ==> |m.data| <= largest) && (m.Post? ==> Size(m.d) <= largest)
    ensures var w' := MoveStep(w, m);
            Small(w'.chan, largest) && PendingFits(w'.net) && TotalSize(w'.net.backlog) < MAX_BACKLOG_BYTES + largest
  {
    hide Step, PendingFits;
    match m
    case Write(id, data, _) =>
      StepFits(w.net, Admit(id, |data|));
      StepTotal(w.net, Admit(id, |data|));
    case Post(d) =>
    case Recv =>
      if w.chan != [] {
        assert w.chan[0] in w.chan;
        StepFits(w.net, Ingest(w.chan[0]));
        IngestSize(w.net, w.chan[0]);
      }
    case Loop(e) =>
      StepFits(w.net, e);
      StepTotal(w.net, e);
  }

  lemma IngestSize(n: Net, d: DataIn)
    ensures TotalSize(Step(n, Ingest(d)).backlog) <= TotalSize(n.backlog) + Size(d)
  {
    hide IngestStep;
    IngestTotal(n, d);
  }

  /** Memory: in every reachable world the backlog is below its bound plus one message, and what is
      pending for each flow is within the bound of one flow. */
  lemma {:induction false} MemoryBounded(n: Net, moves: seq<Move>, largest: nat)
    requires Fresh(n) && PermittedRun(World(n, [], []), moves) && SmallMoves(moves, largest)
    ensures var w := Moves(World(n, [], []), moves);
            Small(w.chan, largest) && PendingFits(w.net) && TotalSize(w.net.backlog) < 524_288 + largest
    decreases |moves|
  {
    hide MoveStep;
    if moves != [] {
      var init, last := moves[..|moves| - 1], moves[|moves| - 1];
      assert last in moves && forall m | m in init :: m in moves;
      MemoryBounded(n, init, largest);
      MoveMemory(Moves(World(n, [], []), init), last, largest);
    }
  }

  // ---- Nothing waits that fits ----

  /** Whether each flow that waits in the backlog is there and has all pending that it may. */
  ghost predicate WaitsFull(n: Net) {
    forall d | d in n.backlog :: d.id in n.tcp && |n.tcp[d.id].pending| >= n.maxPending
  }

  lemma IngestFull(n: Net, d: DataIn)
    requires WaitsFull(n)
    ensures WaitsFull(IngestStep(n, d)) && IngestStep(n, d).maxPending == n.maxPending
  {
    var m := IngestStep(n, d);
    if d.id in Ids(n.backlog) {
      var e :| e in n.backlog && e.id == d.id;
    }
    forall e | e in m.backlog
      ensures e.id in m.tcp && |m.tcp[e.id].pending| >= n.maxPending
    {
      if e in n.backlog {
        assert e.id in Ids(n.backlog);
      }
    }
  }

  lemma {:induction false} DrainFull(n: Net, queue: seq<DataIn>)
    requires WaitsFull(n)
    ensures WaitsFull(DrainFrom(n, queue)) && DrainFrom(n, queue).maxPending == n.maxPending
    decreases |queue|
  {
    hide IngestStep, WaitsFull;
    if queue != [] {
      IngestFull(n, queue[0]);
      DrainFull(IngestStep(n, queue[0]), queue[1..]);
    }
  }

  /** After a pass over the backlog, whatever still waits belongs to a flow that has all pending that it may: the
      pass takes all that there is room for. */
  lemma NothingWaitsThatFits(n: Net)
    ensures var m := DrainStep(n);
            forall d | d in m.backlog :: d.id in m.tcp && |m.tcp[d.id].pending| >= n.maxPending
  {
    hide DrainFrom;
    DrainFull(n.(backlog := []), n.backlog);
  }

  /** A message to a flow with nothing waiting fills what the flow may have pending, and only the rest waits. */
  lemma FillsExactly(n: Net, id: nat, data: seq<Byte>)
    requires id in n.tcp && |n.tcp[id].pending| <= n.maxPending && id !in Ids(n.backlog) && data != []
    ensures var m, all := IngestStep(n, Tcp(id, data)), n.tcp[id].pending + data;
            id in m.tcp &&
            if |all| <= n.maxPending then m.tcp[id].pending == all && m.backlog == n.backlog
            else && m.tcp[id].pending == all[..n.maxPending]
                 && m.backlog == n.backlog + [Tcp(id, all[n.maxPending..])]
  {
    var f, space := n.tcp[id], n.maxPending - |n.tcp[id].pending|;
    if |data| > space {
      assert (f.pending + data)[..n.maxPending] == f.pending + data[..space];
      assert (f.pending + data)[n.maxPending..] == data[space..];
      assert data[..0] == [] && data[0..] == data;
      assert f.pending + [] == f.pending;
    } else {
      assert n.backlog + [] == n.backlog;
    }
  }
}
