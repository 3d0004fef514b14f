/** How long a flow lives: what the history of its passes says of its connection, its app side and its end. */
module Lifetimes {
  import opened Bytes
  import opened Net
  import opened Isolation
  import opened Conservation
  import opened Liveness

  // ---- The history of a flow's connection ----

  /** What has become of a flow: whether a pass found it connected, since when passes find its app side gone,
      whether one has given it up for that, and whether the reaper has reset it. */
  datatype Life = Life(connected: bool, goneSince: Option<Time>, givenUp: bool, reaped: bool)

  const BORN := Life(false, None, false, false)

  /** The phase in which a pass finds a flow: closed once the reaper has reset it. */
  function Found(l: Life, pass: Pass): Phase { if l.reaped then Closed else pass.phase }

  predicate ConnectedAt(l: Life, pass: Pass) {
    l.connected || Found(l, pass) == Established || Found(l, pass) == CloseWait
  }

  /** Since when the app side is gone, as of this pass. */
  function Since(l: Life, pass: Pass): Time { if l.goneSince.Some? then l.goneSince.value else pass.now }

  /** Whether the pass gives up a flow whose app side is gone: there is more to read, or it was left long enough. */
  predicate GivesUp(l: Life, pass: Pass, linger: Time) {
    ConnectedAt(l, pass) && pass.appGone && (pass.canRecv || Elapsed(pass.now, Since(l, pass)) >= linger)
  }

  function AfterPass(l: Life, pass: Pass, linger: Time): Life {
    if l.givenUp || !ConnectedAt(l, pass) then l
    else
      Life(true, if pass.appGone then Some(Since(l, pass)) else l.goneSince, GivesUp(l, pass, linger), l.reaped)
  }

  /** What has become of flow `j` by the end of a run. */
  function LifeOf(n: Net, events: seq<Event>, j: nat): Life
    decreases |events|
  {
    if events == [] then BORN
    else
      var init, last := events[..|events| - 1], events[|events| - 1];
      var m, l := Run(n, init), LifeOf(n, init, j);
      if j !in m.tcp then BORN
      else if last.Service? && last.id == j then AfterPass(l, last.pass, n.orphanLinger)
      else if last.Reap? then l.(reaped := l.reaped || Reaps(m, j, last.now))
      else l
  }

  /** Whether the reaper resets `j`. */
  predicate Reaps(n: Net, j: nat, now: Time)
    requires j in n.tcp
  {
    Stalled(n.tcp[j], now) || (j in Ids(n.backlog) && Wedged(n.tcp[j], now))
  }

  /** Whether the fields of `f` tell that life. */
  ghost predicate Lives(f: Flow, l: Life, deadline: Time) {
    && f.established == l.connected && f.orphanedAt == l.goneSince && f.aborted == l.givenUp
    && f.connectDeadline == deadline && (!l.givenUp ==> f.socket.reset == l.reaped)
  }

  // ---- One pass ----

  /** Whether the pass asks the socket to close: nobody is left to read, or the app has closed and nothing is
      pending. */
  predicate Asks(f: Flow, pass: Pass) { pass.appGone || (f.halfClosed && f.pending == []) }

  /** Whether the pass ends the flow: it was given up before; it never connected, and was refused, is wanted no
      more or is at its deadline; or its connection is at its end, and is not given up just now. */
  predicate Ends(f: Flow, l: Life, deadline: Time, linger: Time, pass: Pass) {
    var phase := Found(l, pass);
    || l.givenUp
    || (!ConnectedAt(l, pass) && (phase == Closed || phase == TimeWait || pass.abandoned || pass.now >= deadline))
    || (ConnectedAt(l, pass) && !GivesUp(l, pass, linger) &&
        (phase == Closed || phase == TimeWait || FlapReset(f, pass)
         || ((phase == Listen || phase == SynSent) && Asks(f, pass))))
  }

  lemma PolledPhase(f: Flow, l: Life, deadline: Time, pass: Pass)
    requires Lives(f, l, deadline) && !l.givenUp
    ensures var p := Polled(f, pass);
            && p.socket.phase == Found(l, pass) && p.socket.reset == l.reaped && p.established == l.connected
            && p.orphanedAt == l.goneSince && !p.aborted && p.connectDeadline == deadline
            && p.halfClosed == f.halfClosed && p.pending == f.pending
    ensures ConnectedAt(l, pass) <==> Look(f, pass).Some?
  {
    hide Uplink;
  }

  /** What the middle of a pass leaves of the connection. */
  lemma SettledLives(txBuf: nat, f: Flow, pass: Pass)
    ensures var g := Settled(txBuf, f, pass);
            && g.established == f.established && g.orphanedAt == f.orphanedAt && g.aborted == f.aborted
            && g.connectDeadline == f.connectDeadline
            && (Flaps(Uplink(f, pass), pass.now) ==> g.socket.phase == Closed)
            && (!Flaps(Uplink(f, pass), pass.now) ==>
                  && g.socket.reset == f.socket.reset
                  && g.socket.phase == (if f.halfClosed && Uplink(f, pass).pending == [] then CloseTo(f.socket.phase)
                                        else f.socket.phase))
  {
    hide Uplink, Flaps, Flapped;
    FlappedLives(txBuf, f, pass);
  }

  lemma FlappedLives(txBuf: nat, f: Flow, pass: Pass)
    ensures var g := Flapped(txBuf, f, pass);
            && g.established == f.established && g.orphanedAt == f.orphanedAt && g.aborted == f.aborted
            && g.connectDeadline == f.connectDeadline
            && (Flaps(Uplink(f, pass), pass.now) ==> g.socket.phase == Closed)
            && (!Flaps(Uplink(f, pass), pass.now) ==>
                  && g.halfClosed == f.halfClosed && g.pending == Uplink(f, pass).pending
                  && g.socket.reset == f.socket.reset && g.socket.phase == f.socket.phase)
  {
    hide Measured, Uplink, Flaps;
    UplinkKeeps(f, pass);
    MeasuredKeeps(txBuf, f, pass);
  }

  lemma MeasuredKeeps(txBuf: nat, f: Flow, pass: Pass)
    ensures var g, u := Measured(txBuf, f, pass), Uplink(f, pass);
            && g.established == u.established && g.orphanedAt == u.orphanedAt && g.aborted == u.aborted
            && g.connectDeadline == u.connectDeadline && g.halfClosed == u.halfClosed && g.pending == u.pending
            && g.socket == u.socket && g.lastProgress == u.lastProgress
  {
    hide Uplink, Draining, NewStall, StallsBefore, Budget, Publish;
  }

  lemma UplinkKeeps(f: Flow, pass: Pass)
    ensures var u := Uplink(f, pass);
            && u.established == f.established && u.orphanedAt == f.orphanedAt && u.aborted == f.aborted
            && u.connectDeadline == f.connectDeadline && u.halfClosed == f.halfClosed
            && u.socket.reset == f.socket.reset && u.socket.phase == f.socket.phase
            && (f.socket.phase != Established && f.socket.phase != CloseWait ==> u.pending == f.pending)
  {
  }

  lemma EndedLives(linger: Time, g: Flow, pass: Pass)
    ensures var r := Ended(linger, g, pass);
            var since := if g.orphanedAt.Some? then g.orphanedAt.value else pass.now;
            var up := pass.appGone && (pass.canRecv || Elapsed(pass.now, since) >= linger);
            var phase := if pass.appGone then CloseTo(g.socket.phase) else g.socket.phase;
            && (r.None? <==> !up && (phase == Closed || phase == TimeWait))
            && (r.Some? ==>
                  && r.value.aborted == (g.aborted || up) && r.value.established == g.established
                  && r.value.connectDeadline == g.connectDeadline
                  && r.value.orphanedAt == (if pass.appGone then Some(since) else g.orphanedAt)
                  && (!up ==> r.value.socket.reset == g.socket.reset))
  {
  }

  lemma PassLives(txBuf: nat, linger: Time, f: Flow, l: Life, deadline: Time, pass: Pass)
    requires Lives(f, l, deadline)
    ensures var r := Serviced(txBuf, linger, f, pass);
            && (r.None? <==> Ends(f, l, deadline, linger, pass))
            && (r.Some? ==> Lives(r.value, AfterPass(l, pass, linger), deadline))
  {
    hide Settled, Ended, Uplink, Flaps, Look, Polled, CloseTo;
    if l.givenUp {
      GivenUp(txBuf, linger, f, pass);
    } else {
      PolledPhase(f, l, deadline, pass);
      var p := Polled(f, pass);
      ServicedChecked(txBuf, linger, f, pass);
      if ConnectedAt(l, pass) {
        var q := p.(established := true);
        SettledLives(txBuf, q, pass);
        UplinkKeeps(q, pass);
        EndedLives(linger, Settled(txBuf, q, pass), pass);
        Closes(q.socket.phase);
        Closes(CloseTo(q.socket.phase));
        Closes(Closed);
        FlapsHere(f, pass);
      } else {
        NotYet(txBuf, linger, f, pass);
      }
    }
  }

  lemma GivenUp(txBuf: nat, linger: Time, f: Flow, pass: Pass)
    requires f.aborted
    ensures Serviced(txBuf, linger, f, pass).None?
  {
  }

  lemma NotYet(txBuf: nat, linger: Time, f: Flow, pass: Pass)
    requires !f.aborted && Look(f, pass).None?
    ensures var r, p := Serviced(txBuf, linger, f, pass), Polled(f, pass);
            r == if p.socket.phase == Closed || p.socket.phase == TimeWait || pass.abandoned
                    || pass.now >= p.connectDeadline then None else Some(p)
  {
    hide Settled, Ended, Uplink;
  }

  lemma FlapsHere(f: Flow, pass: Pass)
    requires Look(f, pass).Some?
    ensures FlapReset(f, pass) == Flaps(Uplink(Polled(f, pass).(established := true), pass), pass.now)
  {
    hide Flaps, Uplink, Polled;
  }

  lemma Closes(p: Phase)
    ensures CloseTo(p) == Closed <==> p == Closed || p == Listen || p == SynSent
    ensures CloseTo(p) == TimeWait <==> p == TimeWait
    ensures CloseTo(p) != Listen && CloseTo(p) != SynSent
  {
  }

  // ---- Whole runs ----

  /** Nothing but a pass of its own removes a flow. */
  lemma OnlyPassesRemove(n: Net, e: Event, j: nat)
    requires j in n.tcp && j !in Step(n, e).tcp
    ensures e.Service? && e.id == j
  {
    hide Serviced, IngestStep, DrainFrom;
    match e
    case Ingest(d) => OtherClocks(n, d, j);
    case DrainBacklog => DrainClocks(n.(backlog := []), n.backlog, j);
    case _ =>
  }

  /** The fields no message changes. */
  predicate SameLife(f: Flow, g: Flow) {
    && g.established == f.established && g.orphanedAt == f.orphanedAt && g.aborted == f.aborted
    && g.connectDeadline == f.connectDeadline && g.socket.reset == f.socket.reset
  }

  lemma IngestLife(n: Net, d: DataIn, j: nat)
    requires j in n.tcp
    ensures j in IngestStep(n, d).tcp && SameLife(n.tcp[j], IngestStep(n, d).tcp[j])
    ensures IngestStep(n, d).orphanLinger == n.orphanLinger
  {
  }

  lemma {:induction false} DrainLife(n: Net, queue: seq<DataIn>, j: nat)
    requires j in n.tcp
    ensures j in DrainFrom(n, queue).tcp && SameLife(n.tcp[j], DrainFrom(n, queue).tcp[j])
    decreases |queue|
  {
    hide IngestStep, SameLife;
    if queue != [] {
      IngestLife(n, queue[0], j);
      DrainLife(IngestStep(n, queue[0]), queue[1..], j);
      LifeOver(n.tcp[j], IngestStep(n, queue[0]).tcp[j], DrainFrom(n, queue).tcp[j]);
    } else {
      LifeOver(n.tcp[j], n.tcp[j], n.tcp[j]);
    }
  }

  lemma LifeOver(f: Flow, g: Flow, h: Flow)
    ensures SameLife(f, g) && SameLife(g, h) ==> SameLife(f, h)
    ensures SameLife(f, f)
  {
  }

  lemma StepLives(n: Net, e: Event, l: Life, deadline: Time, j: nat)
    requires Issued(n) && j in n.tcp && Lives(n.tcp[j], l, deadline)
    ensures var after := if e.Service? && e.id == j then AfterPass(l, e.pass, n.orphanLinger)
                         else if e.Reap? then l.(reaped := l.reaped || Reaps(n, j, e.now)) else l;
            j in Step(n, e).tcp ==> Lives(Step(n, e).tcp[j], after, deadline)
    ensures e.Service? && e.id == j ==> (j !in Step(n, e).tcp <==> Ends(n.tcp[j], l, deadline, n.orphanLinger, e.pass))
  {
    hide Serviced, IngestStep, DrainFrom, AfterPass, Ends, Stalled, Wedged;
    match e
    case Ingest(d) => IngestLife(n, d, j);
    case DrainBacklog => DrainLife(n.(backlog := []), n.backlog, j);
    case Service(id, pass) =>
      if id == j {
        PassLives(n.txBuf, n.orphanLinger, n.tcp[j], l, deadline, pass);
      }
    case Reap(now) => ReapsExactly(n, now, j);
    case _ =>
  }

  lemma {:induction false} RunLinger(n: Net, events: seq<Event>)
    ensures Run(n, events).orphanLinger == n.orphanLinger
    decreases |events|
  {
    hide Step;
    if events != [] {
      RunLinger(n, events[..|events| - 1]);
      StepLinger(Run(n, events[..|events| - 1]), events[|events| - 1]);
    }
  }

  lemma StepLinger(n: Net, e: Event)
    ensures Step(n, e).orphanLinger == n.orphanLinger
  {
    hide Serviced, IngestStep, DrainFrom;
    match e
    case Ingest(d) => IngestLinger(n, d);
    case DrainBacklog => DrainLinger(n.(backlog := []), n.backlog);
    case _ =>
  }

  lemma IngestLinger(n: Net, d: DataIn)
    ensures IngestStep(n, d).orphanLinger == n.orphanLinger
  {
  }

  lemma {:induction false} DrainLinger(n: Net, queue: seq<DataIn>)
    ensures DrainFrom(n, queue).orphanLinger == n.orphanLinger
    decreases |queue|
  {
    hide IngestStep;
    if queue != [] {
      IngestLinger(n, queue[0]);
      DrainLinger(IngestStep(n, queue[0]), queue[1..]);
    }
  }

  /** Over every run the connection's fields tell the flow's life. */
  lemma {:induction false} RunLives(n: Net, events: seq<Event>, j: nat)
    requires Fresh(n) && LawfulRun(n, events)
    ensures var m := Run(n, events);
            j in m.tcp ==> Lives(m.tcp[j], LifeOf(n, events, j), OpenedAt(n, events, j) + n.connectFor)
    decreases |events|
  {
    hide Step, AfterPass, Reaps, Lives;
    if events != [] {
      var init, last := events[..|events| - 1], events[|events| - 1];
      var m := Run(n, init);
      RunLives(n, init, j);
      StreamConserved(n, init, j);
      RunLinger(n, init);
      if j in m.tcp {
        assert j < m.nextId;
        StepLives(m, last, LifeOf(n, init, j), OpenedAt(n, init, j) + n.connectFor, j);
      } else if j in Step(m, last).tcp {
        OpensOnly(m, last, j);
        RunConst(n, init);
        Born(last.carrier, last.now, n.connectFor);
      }
    }
  }

  lemma Born(carrier: bool, now: Time, connectFor: Time)
    ensures Lives(NewFlow(carrier, now, connectFor), BORN, now + connectFor)
  {
  }

  /** In every run, a pass removes a flow exactly when an earlier pass gave it up; or no pass has found it
      connected, and this one finds it closed, abandoned or at the deadline it was opened with; or it is
      connected, this pass does not give it up, and finds its connection at its end or resets it for stalling. */
  lemma RemovedIff(n: Net, events: seq<Event>, j: nat, pass: Pass)
    requires Fresh(n) && LawfulRun(n, events) && j in Run(n, events).tcp
    ensures j !in Step(Run(n, events), Service(j, pass)).tcp <==>
            var deadline := OpenedAt(n, events, j) + n.connectFor;
            Ends(Run(n, events).tcp[j], LifeOf(n, events, j), deadline, n.orphanLinger, pass)
  {
    hide Step, Ends, Lives, LifeOf, Run;
    RunLives(n, events, j);
    RunLinger(n, events);
    StreamConserved(n, events, j);
    StepLives(Run(n, events), Service(j, pass), LifeOf(n, events, j), OpenedAt(n, events, j) + n.connectFor, j);
  }

  // ---- Progress ----

  /** Whether `e`, after the run `init`, is a pass of a connected `j` that finds nothing pending or moves an octet
      into its socket. */
  ghost predicate Progresses(n: Net, init: seq<Event>, e: Event, j: nat) {
    var m := Run(n, init);
    && e.Service? && e.id == j && j in m.tcp && Look(m.tcp[j], e.pass).Some?
    && (m.tcp[j].pending == []
        || (j in Step(m, e).tcp && |Step(m, e).tcp[j].socket.accepted| > |m.tcp[j].socket.accepted|))
  }

  /** When flow `j` last progressed, the opening of the flow if it never has. */
  ghost function LastProgress(n: Net, events: seq<Event>, j: nat): Time
    decreases |events|
  {
    if events == [] then 0
    else
      var init, last := events[..|events| - 1], events[|events| - 1];
      if last.Open? && Run(n, init).nextId == j then last.now
      else if Progresses(n, init, last, j) then last.pass.now
      else LastProgress(n, init, j)
  }

  lemma PassProgress(txBuf: nat, linger: Time, f: Flow, pass: Pass)
    requires Serviced(txBuf, linger, f, pass).Some?
    ensures var g := Serviced(txBuf, linger, f, pass).value;
            g.lastProgress == if Look(f, pass).Some? && (f.pending == [] || |g.socket.accepted| > |f.socket.accepted|)
                              then pass.now else f.lastProgress
  {
    hide Settled, Ended, Uplink, Look, Polled;
    ServicedChecked(txBuf, linger, f, pass);
    PolledProgress(f, pass);
    if Look(f, pass).Some? {
      var q := Polled(f, pass).(established := true);
      UplinkProgress(q, pass);
      SettledProgress(txBuf, q, pass);
      EndedProgress(linger, Settled(txBuf, q, pass), pass);
    }
  }

  lemma PolledProgress(f: Flow, pass: Pass)
    ensures var p := Polled(f, pass);
            p.lastProgress == f.lastProgress && p.pending == f.pending && p.socket.accepted == f.socket.accepted
  {
  }

  lemma UplinkProgress(f: Flow, pass: Pass)
    ensures var u := Uplink(f, pass);
            u.lastProgress == if f.pending == [] || |u.socket.accepted| > |f.socket.accepted| then pass.now
                              else f.lastProgress
  {
  }

  lemma SettledProgress(txBuf: nat, f: Flow, pass: Pass)
    ensures var g, u := Settled(txBuf, f, pass), Uplink(f, pass);
            g.lastProgress == u.lastProgress && g.socket.accepted == u.socket.accepted
  {
    hide Uplink, Flaps, Measured;
    MeasuredKeeps(txBuf, f, pass);
  }

  lemma EndedProgress(linger: Time, f: Flow, pass: Pass)
    ensures var r := Ended(linger, f, pass);
            r.Some? ==> r.value.lastProgress == f.lastProgress && r.value.socket.accepted == f.socket.accepted
  {
    hide CloseTo;
  }

  lemma IngestProgress(n: Net, d: DataIn, j: nat)
    requires j in n.tcp
    ensures j in IngestStep(n, d).tcp && IngestStep(n, d).tcp[j].lastProgress == n.tcp[j].lastProgress
  {
  }

  lemma {:induction false} DrainProgress(n: Net, queue: seq<DataIn>, j: nat)
    requires j in n.tcp
    ensures j in DrainFrom(n, queue).tcp && DrainFrom(n, queue).tcp[j].lastProgress == n.tcp[j].lastProgress
    decreases |queue|
  {
    hide IngestStep;
    if queue != [] {
      IngestProgress(n, queue[0], j);
      DrainProgress(IngestStep(n, queue[0]), queue[1..], j);
    }
  }

  lemma StepProgress(n: Net, e: Event, j: nat)
    requires Issued(n) && j in n.tcp && j in Step(n, e).tcp
    ensures var f, g := n.tcp[j], Step(n, e).tcp[j];
            g.lastProgress == if e.Service? && e.id == j && Look(f, e.pass).Some?
                                 && (f.pending == [] || |g.socket.accepted| > |f.socket.accepted|)
                              then e.pass.now else f.lastProgress
  {
    hide Serviced, IngestStep, DrainFrom, Look;
    match e
    case Ingest(d) => IngestProgress(n, d, j);
    case DrainBacklog => DrainProgress(n.(backlog := []), n.backlog, j);
    case Service(id, pass) =>
      if id == j {
        PassProgress(n.txBuf, n.orphanLinger, n.tcp[j], pass);
      }
    case Reap(now) =>
    case _ =>
  }

  lemma {:induction false} RunProgress(n: Net, events: seq<Event>, j: nat)
    requires Fresh(n) && LawfulRun(n, events)
    ensures j in Run(n, events).tcp ==> Run(n, events).tcp[j].lastProgress == LastProgress(n, events, j)
    decreases |events|
  {
    hide Step, Look;
    if events != [] {
      var init, last := events[..|events| - 1], events[|events| - 1];
      RunProgress(n, init, j);
      StreamConserved(n, init, j);
      var m := Run(n, init);
      if j in Step(m, last).tcp {
        if j in m.tcp {
          StepProgress(m, last, j);
        } else {
          OpensOnly(m, last, j);
        }
      }
    }
  }

  /** No pass within `span` of `now` progressed. */
  ghost predicate IdleFor(n: Net, events: seq<Event>, j: nat, span: Time, now: Time) {
    forall i | 0 <= i < |events| && Progresses(n, events[..i], events[i], j) ::
      events[i].Service? && events[i].pass.now + span <= now
  }

  /** Every pass that progressed did so by `clock`. */
  ghost predicate ProgressBy(n: Net, events: seq<Event>, j: nat, clock: Time) {
    forall i | 0 <= i < |events| && Progresses(n, events[..i], events[i], j) ::
      events[i].Service? && events[i].pass.now <= clock
  }

  lemma {:induction false} ProgressIsLatest(n: Net, events: seq<Event>, j: nat, span: Time, now: Time)
    requires Fresh(n) && LawfulRun(n, events) && Timed(events) && j in Run(n, events).tcp
    ensures LastProgress(n, events, j) <= Clock(events) && OpenedAt(n, events, j) <= Clock(events)
    ensures ProgressBy(n, events, j, Clock(events))
    ensures LastProgress(n, events, j) + span <= now <==>
            OpenedAt(n, events, j) + span <= now && IdleFor(n, events, j, span, now)
    decreases |events|
  {
    hide Run, Progresses;
    if events == [] {
      NoFlows(n, j);
    } else {
      var init, last := events[..|events| - 1], events[|events| - 1];
      OpensOrWas(n, events, j);
      PassesOnly(n, init, last, j);
      EarlierIdle(n, events, j, span, now);
      if last.Open? && Run(n, init).nextId == j {
        NeverBefore(n, init, j);
        assert IdleFor(n, init, j, span, now) && ProgressBy(n, init, j, 0);
        EarlierBy(n, events, j, 0, Clock(events));
      } else {
        ProgressIsLatest(n, init, j, span, now);
        EarlierBy(n, events, j, Clock(init), Clock(events));
      }
    }
  }

  lemma PassesOnly(n: Net, init: seq<Event>, e: Event, j: nat)
    ensures Progresses(n, init, e, j) ==> e.Service?
  {
    hide Look, Run, Step;
  }

  lemma Before(events: seq<Event>, i: nat)
    requires i < |events| - 1
    ensures var init := events[..|events| - 1]; events[..i] == init[..i] && events[i] == init[i]
  {
  }

  /** The passes of a run are those of the run before its last event, and that event. */
  lemma EarlierIdle(n: Net, events: seq<Event>, j: nat, span: Time, now: Time)
    requires events != []
    ensures var init, last := events[..|events| - 1], events[|events| - 1];
            IdleFor(n, events, j, span, now) <==>
            && IdleFor(n, init, j, span, now)
            && (Progresses(n, init, last, j) ==> last.Service? && last.pass.now + span <= now)
  {
    hide Progresses;
    var init, last := events[..|events| - 1], events[|events| - 1];
    if IdleFor(n, events, j, span, now) {
      forall i | 0 <= i < |init| && Progresses(n, init[..i], init[i], j)
        ensures init[i].Service? && init[i].pass.now + span <= now
      {
        Before(events, i);
        assert Progresses(n, events[..i], events[i], j);
      }
    }
    if
      && IdleFor(n, init, j, span, now)
      && (Progresses(n, init, last, j) ==> last.Service? && last.pass.now + span <= now)
    {
      forall i | 0 <= i < |events| && Progresses(n, events[..i], events[i], j)
        ensures events[i].Service? && events[i].pass.now + span <= now
      {
        if i < |init| {
          Before(events, i);
          assert Progresses(n, init[..i], init[i], j);
        }
      }
    }
  }

  lemma EarlierBy(n: Net, events: seq<Event>, j: nat, before: Time, clock: Time)
    requires events != [] && before <= clock && ProgressBy(n, events[..|events| - 1], j, before)
    requires var init, last := events[..|events| - 1], events[|events| - 1];
             Progresses(n, init, last, j) ==> last.Service? && last.pass.now <= clock
    ensures ProgressBy(n, events, j, clock)
  {
    hide Progresses;
    var init := events[..|events| - 1];
    forall i | 0 <= i < |events| && Progresses(n, events[..i], events[i], j)
      ensures events[i].Service? && events[i].pass.now <= clock
    {
      if i < |init| {
        Before(events, i);
        assert Progresses(n, init[..i], init[i], j);
      }
    }
  }

  lemma {:induction false} NeverBefore(n: Net, events: seq<Event>, j: nat)
    requires Fresh(n) && LawfulRun(n, events) && j >= Run(n, events).nextId
    ensures forall i | 0 <= i < |events| :: !Progresses(n, events[..i], events[i], j)
    decreases |events|
  {
    hide Step, Look;
    if events != [] {
      var init, last := events[..|events| - 1], events[|events| - 1];
      IdsGrow(Run(n, init), last);
      NeverBefore(n, init, j);
      StreamConserved(n, init, j);
      forall i | 0 <= i < |events|
        ensures !Progresses(n, events[..i], events[i], j)
      {
        if i < |init| {
          assert events[..i] == init[..i] && events[i] == init[i];
        }
      }
    }
  }

  /** In every run, a flow is wedged exactly when it carries no tunnel, has been open for 30 seconds, and no pass
      in the last 30 seconds found nothing pending or moved an octet into its socket. */
  lemma WedgedIff(n: Net, events: seq<Event>, j: nat, now: Time)
    requires Fresh(n) && LawfulRun(n, events) && Timed(events) && Clock(events) <= now && j in Run(n, events).tcp
    ensures var f := Run(n, events).tcp[j];
            Wedged(f, now) <==>
            !f.carrier && OpenedAt(n, events, j) + 30_000 <= now && IdleFor(n, events, j, 30_000, now)
  {
    hide Run, IdleFor, ProgressBy, LastProgress, OpenedAt, Timed;
    RunProgress(n, events, j);
    ProgressIsLatest(n, events, j, 30_000, now);
  }

  lemma NoFlows(n: Net, j: nat)
    requires Fresh(n)
    ensures j !in Run(n, []).tcp
  {
  }

  lemma OpensOrWas(n: Net, events: seq<Event>, j: nat)
    requires events != [] && Fresh(n) && LawfulRun(n, events) && j in Run(n, events).tcp
    ensures var init, last := events[..|events| - 1], events[|events| - 1];
            (last.Open? && Run(n, init).nextId == j) || (j in Run(n, init).tcp && j < Run(n, init).nextId)
  {
    hide Step;
    var init, last := events[..|events| - 1], events[|events| - 1];
    StreamConserved(n, init, j);
    if j !in Run(n, init).tcp {
      OpensOnly(Run(n, init), last, j);
    }
  }
}
