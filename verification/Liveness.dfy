/** What a reset for want of acknowledgements says about the whole run that led to it. */
module Liveness {
  import opened Bytes
  import opened Net
  import opened Isolation
  import opened Conservation

  /** What a service pass sees of a flow's send queue: when, how much is in it unacknowledged, and how
      much the peer has acknowledged in all. */
  datatype Seen = Seen(time: Time, queued: nat, acked: nat)

  // ---- The history of a flow, without reference to the fields the stack keeps ----

  /** Whether pass `i` found the queue empty or more acknowledged than the pass before it. */
  predicate Drained(seen: seq<Seen>, i: nat)
    requires i < |seen|
  {
    seen[i].queued == 0 || seen[i].acked > if i == 0 then 0 else seen[i - 1].acked
  }

  /** When the queue last drained, the opening of the flow if it never has. */
  function LastDrained(seen: seq<Seen>, start: Time): Time {
    if seen == [] then start
    else if Drained(seen, |seen| - 1) then seen[|seen| - 1].time
    else LastDrained(seen[..|seen| - 1], start)
  }

  /** Whether pass `i` finds the flow stalled for long enough to report. */
  predicate Stalling(seen: seq<Seen>, start: Time, i: nat)
    requires i < |seen|
  {
    !Drained(seen, i) && Elapsed(seen[i].time, LastDrained(seen[..i], start)) >= 3_000
  }

  /** Whether a stall is first found at pass `i`. */
  predicate StallBegins(seen: seq<Seen>, start: Time, i: nat)
    requires i < |seen|
  {
    Stalling(seen, start, i) && (i == 0 || !Stalling(seen, start, i - 1))
  }

  /** When a stall was last found to begin. */
  function LastStall(seen: seq<Seen>, start: Time): Option<Time> {
    if seen == [] then None
    else if StallBegins(seen, start, |seen| - 1) then Some(seen[|seen| - 1].time)
    else LastStall(seen[..|seen| - 1], start)
  }

  lemma DrainedPrefix(seen: seq<Seen>, i: nat, k: nat)
    requires i < k <= |seen|
    ensures Drained(seen[..k], i) == Drained(seen, i)
  {
  }

  lemma StallingPrefix(seen: seq<Seen>, start: Time, i: nat, k: nat)
    requires i < k <= |seen|
    ensures Stalling(seen[..k], start, i) == Stalling(seen, start, i)
    ensures StallBegins(seen[..k], start, i) == StallBegins(seen, start, i)
  {
    assert seen[..k][..i] == seen[..i];
    DrainedPrefix(seen, i, k);
    if i > 0 {
      assert seen[..k][..i - 1] == seen[..i - 1];
      DrainedPrefix(seen, i - 1, k);
    }
  }

  // ---- What the stack's fields say of that history ----

  /** What a pass sees, when the flow comes to its drain check. */
  function Look(f: Flow, pass: Pass): Option<Seen> {
    var p := Polled(f, pass);
    var connected := p.socket.phase == Established || p.socket.phase == CloseWait;
    if p.aborted || !(p.established || connected) then None
    else
      var u := Uplink(p.(established := true), pass);
      Some(Seen(pass.now, Unacked(u.socket), u.socket.acked))
  }

  /** The passes of flow `j` over a run. */
  function History(n: Net, events: seq<Event>, j: nat): seq<Seen>
    decreases |events|
  {
    if events == [] then []
    else
      var init, last := events[..|events| - 1], events[|events| - 1];
      var m := Run(n, init);
      var look := if last.Service? && last.id == j && j in m.tcp then Look(m.tcp[j], last.pass) else None;
      History(n, init, j) + if look.Some? then [look.value] else []
  }

  /** When flow `j` was opened in a run. */
  function OpenedAt(n: Net, events: seq<Event>, j: nat): Time
    decreases |events|
  {
    if events == [] then 0
    else
      var init, last := events[..|events| - 1], events[|events| - 1];
      if last.Open? && Run(n, init).nextId == j then last.now else OpenedAt(n, init, j)
  }

  /** Whether the fields of `f` tell the history `seen`. */
  ghost predicate Tells(f: Flow, seen: seq<Seen>, start: Time) {
    && f.lastDrain == LastDrained(seen, start)
    && f.ackedHigh == (if seen == [] then 0 else seen[|seen| - 1].acked)
    && f.queueHigh == (if seen == [] then 0 else seen[|seen| - 1].queued)
    && f.ackedHigh <= f.socket.acked <= |f.socket.accepted|
    && (f.drainWarned <==> seen != [] && Stalling(seen, start, |seen| - 1))
    && (!f.carrier ==>
          match LastStall(seen, start)
          case None => f.stallCount == 0
          case Some(t) => f.stallCount == 1 && f.stallMark == t)
  }

  /** The flow that a pass takes to its drain check. */
  function Checked(f: Flow, pass: Pass): Flow { Uplink(Polled(f, pass).(established := true), pass) }

  /** The liveness fields, which nothing but the drain check changes. */
  predicate SameClocks(f: Flow, g: Flow) {
    && g.lastDrain == f.lastDrain && g.ackedHigh == f.ackedHigh && g.queueHigh == f.queueHigh
    && g.drainWarned == f.drainWarned && g.stallCount == f.stallCount && g.stallMark == f.stallMark
    && g.carrier == f.carrier
  }

  lemma CheckedClocks(f: Flow, pass: Pass)
    ensures SameClocks(f, Checked(f, pass))
    ensures f.socket.acked <= |f.socket.accepted| ==>
              f.socket.acked <= Checked(f, pass).socket.acked <= |Checked(f, pass).socket.accepted|
  {
  }

  /** The drain check tells one pass more. */
  lemma CheckTells(f: Flow, seen: seq<Seen>, start: Time, now: Time)
    requires f.lastDrain == LastDrained(seen, start)
    requires f.ackedHigh == (if seen == [] then 0 else seen[|seen| - 1].acked)
    requires f.drainWarned <==> seen != [] && Stalling(seen, start, |seen| - 1)
    requires f.ackedHigh <= f.socket.acked && (seen != [] ==> seen[|seen| - 1].time <= now)
    ensures var more := seen + [Seen(now, Unacked(f.socket), f.socket.acked)];
            var g := DrainCheck(f, now);
            && (Draining(f) <==> Drained(more, |seen|))
            && (NewStall(f, now) <==> StallBegins(more, start, |seen|))
            && g.lastDrain == LastDrained(more, start)
            && g.ackedHigh == f.socket.acked && g.queueHigh == Unacked(f.socket)
            && (g.drainWarned <==> Stalling(more, start, |seen|))
  {
    var more := seen + [Seen(now, Unacked(f.socket), f.socket.acked)];
    assert more[..|seen|] == seen;
    assert Draining(f) <==> Drained(more, |seen|);
    if seen != [] {
      StallingPrefix(more, start, |seen| - 1, |seen|);
      LastDrainedStep(more, start);
    }
  }

  lemma LastDrainedStep(seen: seq<Seen>, start: Time)
    requires |seen| >= 2
    ensures var k := |seen| - 1;
            Stalling(seen, start, k - 1) ==> LastDrained(seen[..k], start) == LastDrained(seen[..k - 1], start)
  {
    var k := |seen| - 1;
    assert seen[..k][..k - 1] == seen[..k - 1];
    DrainedPrefix(seen, k - 1, k);
  }

  /** Clocks only go forward. */
  ghost predicate Clocked(seen: seq<Seen>, start: Time, now: Time) {
    && start <= now
    && (forall i | 0 <= i < |seen| :: start <= seen[i].time <= now)
    && (forall i, k | 0 <= i <= k < |seen| :: seen[i].time <= seen[k].time)
  }

  // ---- One pass ----

  lemma MeasuredClocks(txBuf: nat, f: Flow, pass: Pass)
    requires !Flaps(Uplink(f, pass), pass.now)
    ensures var g, u := Settled(txBuf, f, pass), Uplink(f, pass);
            && SameClocks(DrainCheck(u, pass.now), g)
            && g.socket.acked == u.socket.acked && g.socket.accepted == u.socket.accepted
  {
    hide Uplink, Draining, NewStall, StallsBefore, Flaps;
  }

  lemma EndedClocks(linger: Time, f: Flow, pass: Pass)
    ensures var r := Ended(linger, f, pass);
            r.Some? ==> SameClocks(f, r.value) && r.value.socket.acked == f.socket.acked
                        && r.value.socket.accepted == f.socket.accepted
                        && (f.socket.reset ==> r.value.socket.reset)
  {
    hide CloseTo, Elapsed;
  }

  lemma FlapResets(txBuf: nat, f: Flow, pass: Pass)
    requires Flaps(Uplink(f, pass), pass.now)
    ensures Settled(txBuf, f, pass).socket.reset
  {
    hide Uplink, Draining, NewStall, StallsBefore, Flaps;
  }

  /** Whether the pass resets the flow for stalling too often. */
  predicate FlapReset(f: Flow, pass: Pass) { Look(f, pass).Some? && Flaps(Checked(f, pass), pass.now) }

  /** A pass resets a flow for flapping exactly when the flow carries no tunnel, a stall begins at this
      pass, and the last stall began less than a minute before. */
  lemma FlapTells(f: Flow, seen: seq<Seen>, start: Time, pass: Pass)
    requires Tells(f, seen, start) && (seen != [] ==> seen[|seen| - 1].time <= pass.now) && Look(f, pass).Some?
    ensures var more := seen + [Look(f, pass).value];
            FlapReset(f, pass) <==>
            (!f.carrier && StallBegins(more, start, |seen|) && LastStall(seen, start).Some?
             && Elapsed(pass.now, LastStall(seen, start).value) < STALL_FLAP_WINDOW)
  {
    hide Uplink, Polled, LastStall, LastDrained, Stalling;
    CheckedClocks(f, pass);
    CheckTells(Checked(f, pass), seen, start, pass.now);
    LookChecked(f, pass);
  }

  lemma LookChecked(f: Flow, pass: Pass)
    requires Look(f, pass).Some?
    ensures Polled(f, pass).(established := true) == (if Polled(f, pass).established then Polled(f, pass)
                                                      else Polled(f, pass).(established := true))
    ensures Look(f, pass).value == Seen(pass.now, Unacked(Checked(f, pass).socket), Checked(f, pass).socket.acked)
  {
  }

  function After(seen: seq<Seen>, look: Option<Seen>): seq<Seen> {
    if look.Some? then seen + [look.value] else seen
  }

  lemma ServicedChecked(txBuf: nat, linger: Time, f: Flow, pass: Pass)
    ensures var r := Serviced(txBuf, linger, f, pass);
            && (Look(f, pass).Some? ==>
                  r == Ended(linger, Settled(txBuf, Polled(f, pass).(established := true), pass), pass))
            && (Look(f, pass).None? && r.Some? ==> r.value == Polled(f, pass))
  {
    hide Settled, Ended;
  }

  /** A pass that leaves the flow not reset leaves its fields telling one pass more. */
  lemma ServicedTells(txBuf: nat, linger: Time, f: Flow, seen: seq<Seen>, start: Time, pass: Pass)
    requires Tells(f, seen, start) && (seen != [] ==> seen[|seen| - 1].time <= pass.now)
    requires var r := Serviced(txBuf, linger, f, pass); r.Some? && !r.value.socket.reset
    ensures Tells(Serviced(txBuf, linger, f, pass).value, After(seen, Look(f, pass)), start)
  {
    hide Settled, Ended, Uplink, Flaps, Polled, LastStall, LastDrained, Stalling, Draining, NewStall, Serviced;
    var r := Serviced(txBuf, linger, f, pass).value;
    ServicedChecked(txBuf, linger, f, pass);
    CheckedClocks(f, pass);
    if Look(f, pass).Some? {
      var g := Polled(f, pass).(established := true);
      EndedClocks(linger, Settled(txBuf, g, pass), pass);
      if FlapReset(f, pass) {
        FlapResets(txBuf, g, pass);
      } else {
        MeasuredClocks(txBuf, g, pass);
        LookChecked(f, pass);
        PassTells(f, seen, start, pass, r);
      }
    } else {
      PolledClocks(f, pass);
    }
  }

  lemma PolledClocks(f: Flow, pass: Pass)
    requires f.socket.acked <= |f.socket.accepted|
    ensures var g := Polled(f, pass);
            SameClocks(f, g) && f.socket.acked <= g.socket.acked <= |g.socket.accepted|
  {
  }

  lemma PassTells(f: Flow, seen: seq<Seen>, start: Time, pass: Pass, r: Flow)
    requires Tells(f, seen, start) && (seen != [] ==> seen[|seen| - 1].time <= pass.now)
    requires Look(f, pass).Some? && !FlapReset(f, pass)
    requires SameClocks(DrainCheck(Checked(f, pass), pass.now), r)
    requires r.socket.acked == Checked(f, pass).socket.acked && r.socket.accepted == Checked(f, pass).socket.accepted
    ensures Tells(r, seen + [Look(f, pass).value], start)
  {
    hide Uplink, Polled, LastDrained, Stalling, Draining, NewStall;
    var u := Checked(f, pass);
    var more := seen + [Look(f, pass).value];
    CheckedClocks(f, pass);
    CheckTells(u, seen, start, pass.now);
    LookChecked(f, pass);
    assert more[..|more| - 1] == seen;
    assert LastStall(more, start) ==
           if StallBegins(more, start, |seen|) then Some(pass.now) else LastStall(seen, start);
  }

  // ---- Whole runs ----

  function TimeOf(e: Event): Option<Time> {
    match e
    case Open(_, now) => Some(now)
    case Service(_, pass) => Some(pass.now)
    case Reap(now) => Some(now)
    case _ => None
  }

  /** The last reading of the clock in a run. */
  function Clock(events: seq<Event>): Time
    decreases |events|
  {
    if events == [] then 0
    else
      var t := TimeOf(events[|events| - 1]);
      if t.Some? then t.value else Clock(events[..|events| - 1])
  }

  /** A run whose clock never goes back. */
  ghost predicate Timed(events: seq<Event>)
    decreases |events|
  {
    events == [] ||
    (Timed(events[..|events| - 1]) && Clock(events[..|events| - 1]) <= Clock(events))
  }

  lemma OtherClocks(n: Net, d: DataIn, j: nat)
    ensures j in IngestStep(n, d).tcp <==> j in n.tcp
    ensures j in n.tcp ==>
              var f, g := n.tcp[j], IngestStep(n, d).tcp[j]; SameClocks(f, g) && g.socket == f.socket
  {
  }

  lemma {:induction false} DrainClocks(n: Net, queue: seq<DataIn>, j: nat)
    ensures j in DrainFrom(n, queue).tcp <==> j in n.tcp
    ensures j in n.tcp ==>
              var f, g := n.tcp[j], DrainFrom(n, queue).tcp[j]; SameClocks(f, g) && g.socket == f.socket
    decreases |queue|
  {
    hide IngestStep;
    if queue != [] {
      OtherClocks(n, queue[0], j);
      DrainClocks(IngestStep(n, queue[0]), queue[1..], j);
    }
  }

  lemma StepTells(n: Net, e: Event, seen: seq<Seen>, start: Time, j: nat)
    requires Issued(n) && j in n.tcp && (!n.tcp[j].socket.reset ==> Tells(n.tcp[j], seen, start))
    requires TimeOf(e).Some? && seen != [] ==> seen[|seen| - 1].time <= TimeOf(e).value
    ensures var look := if e.Service? && e.id == j then Look(n.tcp[j], e.pass) else None;
            j in Step(n, e).tcp && !Step(n, e).tcp[j].socket.reset ==>
              Tells(Step(n, e).tcp[j], After(seen, look), start)
  {
    hide Serviced, IngestStep, DrainFrom, LastStall, LastDrained, Stalling, Look;
    match e
    case Ingest(d) => OtherClocks(n, d, j);
    case DrainBacklog => DrainClocks(n.(backlog := []), n.backlog, j);
    case Service(id, pass) =>
      if id == j {
        var f, r := n.tcp[j], Serviced(n.txBuf, n.orphanLinger, n.tcp[j], pass);
        ServicedStream(n.txBuf, n.orphanLinger, f, pass);
        if r.Some? && !r.value.socket.reset {
          ServicedTells(n.txBuf, n.orphanLinger, f, seen, start, pass);
        }
      }
    case _ =>
  }

  lemma {:induction false} Unopened(n: Net, events: seq<Event>, j: nat)
    requires Fresh(n) && LawfulRun(n, events) && j >= Run(n, events).nextId
    ensures History(n, events, j) == [] && j !in Run(n, events).tcp
    decreases |events|
  {
    hide Step, Look;
    StreamConserved(n, events, j);
    if events != [] {
      var init, last := events[..|events| - 1], events[|events| - 1];
      IdsGrow(Run(n, init), last);
      Unopened(n, init, j);
    }
  }

  /** Over every run the liveness fields of a flow that was not reset tell exactly its passes. */
  lemma {:induction false} RunTells(n: Net, events: seq<Event>, j: nat)
    requires Fresh(n) && LawfulRun(n, events) && Timed(events)
    ensures var m, seen, start := Run(n, events), History(n, events, j), OpenedAt(n, events, j);
            j in m.tcp ==>
              && Clocked(seen, start, Clock(events))
              && (!m.tcp[j].socket.reset ==> Tells(m.tcp[j], seen, start))
    decreases |events|
  {
    hide Step, Look, Tells;
    if events != [] {
      var init, last := events[..|events| - 1], events[|events| - 1];
      var m := Run(n, init);
      RunTells(n, init, j);
      StreamConserved(n, init, j);
      if j in m.tcp {
        var seen := History(n, init, j);
        var look := if last.Service? && last.id == j then Look(m.tcp[j], last.pass) else None;
        StepTells(m, last, seen, OpenedAt(n, init, j), j);
        StepClocked(n, events, j);
        assert History(n, events, j) == After(seen, look);
      } else if j in Step(m, last).tcp {
        OpensOnly(m, last, j);
        Unopened(n, init, j);
        NewTells(last.carrier, last.now, n.connectFor);
        RunConst(n, init);
      }
    }
  }

  lemma StepClocked(n: Net, events: seq<Event>, j: nat)
    requires events != [] && Timed(events)
    requires var init := events[..|events| - 1];
             j < Run(n, init).nextId && Clocked(History(n, init, j), OpenedAt(n, init, j), Clock(init))
    ensures Clocked(History(n, events, j), OpenedAt(n, events, j), Clock(events))
    ensures OpenedAt(n, events, j) == OpenedAt(n, events[..|events| - 1], j)
  {
    hide Run, Step;
  }

  lemma OpensOnly(n: Net, e: Event, j: nat)
    requires j !in n.tcp && j in Step(n, e).tcp
    ensures e.Open? && j == n.nextId && Step(n, e).tcp[j] == NewFlow(e.carrier, e.now, n.connectFor)
  {
    hide Serviced, IngestStep, DrainFrom;
    match e
    case Ingest(d) => OtherClocks(n, d, j);
    case DrainBacklog => DrainClocks(n.(backlog := []), n.backlog, j);
    case _ =>
  }

  lemma NewTells(carrier: bool, now: Time, connectFor: Time)
    ensures Tells(NewFlow(carrier, now, connectFor), [], now)
  {
  }

  lemma {:induction false} RunConst(n: Net, events: seq<Event>)
    ensures Run(n, events).connectFor == n.connectFor
    decreases |events|
  {
    hide Step;
    if events != [] {
      RunConst(n, events[..|events| - 1]);
      StepConst(Run(n, events[..|events| - 1]), events[|events| - 1]);
    }
  }

  lemma StepConst(n: Net, e: Event)
    ensures Step(n, e).connectFor == n.connectFor
  {
    hide Serviced, IngestStep;
    if e.Ingest? {
      IngestConst(n, e.d);
    } else if e.DrainBacklog? {
      DrainConst(n.(backlog := []), n.backlog);
    }
  }

  lemma IngestConst(n: Net, d: DataIn)
    ensures IngestStep(n, d).connectFor == n.connectFor
  {
  }

  lemma {:induction false} DrainConst(n: Net, queue: seq<DataIn>)
    ensures DrainFrom(n, queue).connectFor == n.connectFor
    decreases |queue|
  {
    hide IngestStep;
    if queue != [] {
      IngestConst(n, queue[0]);
      DrainConst(IngestStep(n, queue[0]), queue[1..]);
    }
  }

  // ---- The resets ----

  /** No pass within `span` of `now` found the queue draining. */
  ghost predicate QuietFor(seen: seq<Seen>, span: Time, now: Time) {
    forall i | 0 <= i < |seen| && Drained(seen, i) :: seen[i].time + span <= now
  }

  lemma QuietPrefix(seen: seq<Seen>, span: Time, now: Time)
    requires seen != [] && !Drained(seen, |seen| - 1)
    ensures QuietFor(seen, span, now) == QuietFor(seen[..|seen| - 1], span, now)
  {
    var init := seen[..|seen| - 1];
    forall i | 0 <= i < |init|
      ensures init[i] == seen[i] && Drained(init, i) == Drained(seen, i)
    {
      DrainedPrefix(seen, i, |init|);
    }
    if QuietFor(init, span, now) {
      forall i | 0 <= i < |seen| && Drained(seen, i)
        ensures seen[i].time + span <= now
      {
        assert Drained(init, i);
      }
    }
  }

  lemma {:induction false} LastDrainedIsLatest(seen: seq<Seen>, start: Time, now: Time, span: Time)
    requires Clocked(seen, start, now)
    ensures start <= LastDrained(seen, start) <= now
    ensures LastDrained(seen, start) + span <= now <==> start + span <= now && QuietFor(seen, span, now)
    decreases |seen|
  {
    if seen != [] {
      if Drained(seen, |seen| - 1) {
        assert forall i | 0 <= i < |seen| :: seen[i].time <= seen[|seen| - 1].time;
      } else {
        QuietPrefix(seen, span, now);
        LastDrainedIsLatest(seen[..|seen| - 1], start, now, span);
      }
    }
  }

  /** In every run, the reaper finds a flow stalled exactly when it carries no tunnel, its last pass
      left octets unacknowledged, it has been open for 8 seconds, and no pass in the last 8 seconds
      found its queue empty or anything newly acknowledged. */
  lemma StalledIff(n: Net, events: seq<Event>, j: nat, now: Time)
    requires Fresh(n) && LawfulRun(n, events) && Timed(events) && Clock(events) <= now
    requires j in Run(n, events).tcp && !Run(n, events).tcp[j].socket.reset
    ensures var f, seen := Run(n, events).tcp[j], History(n, events, j);
            Stalled(f, now) <==>
            && !f.carrier && seen != [] && seen[|seen| - 1].queued > 0
            && OpenedAt(n, events, j) + 8_000 <= now && QuietFor(seen, 8_000, now)
  {
    hide Run, History, LastStall, Stalling;
    RunTells(n, events, j);
    LastDrainedIsLatest(History(n, events, j), OpenedAt(n, events, j), now, TCP_DRAIN_STALL_TIMEOUT);
  }

  lemma {:induction false} LastStallIsLatest(seen: seq<Seen>, start: Time, now: Time)
    requires Clocked(seen, start, now)
    ensures (LastStall(seen, start).Some? && Elapsed(now, LastStall(seen, start).value) < STALL_FLAP_WINDOW)
            <==> (exists i :: 0 <= i < |seen| && StallBegins(seen, start, i) && now - seen[i].time < STALL_FLAP_WINDOW)
    ensures LastStall(seen, start).Some? ==> LastStall(seen, start).value <= now
    decreases |seen|
  {
    hide Stalling;
    if seen != [] {
      var init, k := seen[..|seen| - 1], |seen| - 1;
      LastStallIsLatest(init, start, now);
      forall i | 0 <= i < k
        ensures StallBegins(init, start, i) == StallBegins(seen, start, i) && init[i] == seen[i]
      {
        StallingPrefix(seen, start, i, k);
      }
      if StallBegins(seen, start, k) {
        assert LastStall(seen, start) == Some(seen[k].time);
      } else {
        assert LastStall(seen, start) == LastStall(init, start);
      }
    }
  }

  /** In every run, a pass resets a flow for flapping exactly when the flow carries no tunnel, a stall
      begins at this pass, and another began at an earlier pass less than a minute before. */
  lemma FlapIff(n: Net, events: seq<Event>, j: nat, pass: Pass)
    requires Fresh(n) && LawfulRun(n, events) && Timed(events) && Clock(events) <= pass.now
    requires j in Run(n, events).tcp && !Run(n, events).tcp[j].socket.reset
    requires Look(Run(n, events).tcp[j], pass).Some?
    ensures var f, seen, start := Run(n, events).tcp[j], History(n, events, j), OpenedAt(n, events, j);
            FlapReset(f, pass) <==>
            && !f.carrier && StallBegins(seen + [Look(f, pass).value], start, |seen|)
            && exists i :: 0 <= i < |seen| && StallBegins(seen, start, i)
                           && pass.now - seen[i].time < 60_000
  {
    hide Run, History, LastStall, Stalling, Look, FlapReset;
    RunTells(n, events, j);
    var f, seen, start := Run(n, events).tcp[j], History(n, events, j), OpenedAt(n, events, j);
    FlapTells(f, seen, start, pass);
    LastStallIsLatest(seen, start, pass.now);
  }

  /** Two stalls that begin are two stalls: between them some pass found the queue draining. */
  lemma StallsAreDistinct(seen: seq<Seen>, start: Time, now: Time, i: nat, k: nat) returns (d: nat)
    requires Clocked(seen, start, now) && i < k < |seen|
    requires StallBegins(seen, start, i) && StallBegins(seen, start, k)
    ensures i < d < k && Drained(seen, d)
  {
    d := i + 1;
    while Stalling(seen, start, d)
      invariant i < d < k && Stalling(seen, start, d - 1)
      decreases k - d
    {
      d := d + 1;
    }
    assert seen[..d][..d - 1] == seen[..d - 1];
    DrainedPrefix(seen, d - 1, d);
  }

  /** The reaper resets exactly the stalled flows and those that wait in the backlog and have taken
      nothing for 30 seconds; every other flow it leaves as it is, with its backlog, and of a flow it
      resets nothing is left pending or waiting. */
  lemma ReapsExactly(n: Net, now: Time, j: nat)
    requires j in n.tcp
    ensures var m := ReapStep(n, now);
            j in m.tcp &&
            if Stalled(n.tcp[j], now) || (j in Ids(n.backlog) && Wedged(n.tcp[j], now)) then
              m.tcp[j].socket.reset && m.tcp[j].credit.closed && m.tcp[j].pending == [] && Only(m.backlog, j) == []
            else m.tcp[j] == n.tcp[j] && Only(m.backlog, j) == Only(n.backlog, j)
  {
    hide Stalled, Wedged;
    OnlyWithout(n.backlog, DeadIds(n, now), j);
  }

  // ---- Flows that carry a tunnel ----

  /** Some pass of flow `j` found its app side gone. */
  ghost predicate Orphaned(events: seq<Event>, j: nat) {
    exists e :: e in events && e.Service? && e.id == j && e.pass.appGone
  }

  lemma CarrierPass(txBuf: nat, linger: Time, f: Flow, pass: Pass)
    requires f.carrier && !f.socket.reset && !pass.appGone
    ensures var r := Serviced(txBuf, linger, f, pass); r.Some? ==> !r.value.socket.reset && r.value.carrier
  {
    hide Settled, Ended;
    var p := Polled(f, pass);
    SettledCarrier(txBuf, p, pass);
    SettledCarrier(txBuf, p.(established := true), pass);
    EndedCarrier(linger, Settled(txBuf, p, pass), pass);
    EndedCarrier(linger, Settled(txBuf, p.(established := true), pass), pass);
  }

  lemma SettledCarrier(txBuf: nat, f: Flow, pass: Pass)
    requires f.carrier && !f.socket.reset
    ensures var g := Settled(txBuf, f, pass); !g.socket.reset && g.carrier
  {
    hide Draining, StallsBefore;
    UplinkStream(f, pass);
  }

  lemma EndedCarrier(linger: Time, f: Flow, pass: Pass)
    requires !pass.appGone
    ensures var r := Ended(linger, f, pass);
            r.Some? ==> r.value.socket.reset == f.socket.reset && r.value.carrier == f.carrier
  {
  }

  /** No reaper touches a flow that carries a tunnel: over every run such a flow is reset only after
      its app side has gone. */
  lemma {:induction false} CarrierSafe(n: Net, events: seq<Event>, j: nat)
    requires Fresh(n) && LawfulRun(n, events)
    requires j in Run(n, events).tcp && Run(n, events).tcp[j].carrier && Run(n, events).tcp[j].socket.reset
    ensures Orphaned(events, j)
    decreases |events|
  {
    hide Step;
    if events != [] {
      var init, last := events[..|events| - 1], events[|events| - 1];
      assert forall e | e in init :: e in events;
      assert last in events;
      CarrierStep(Run(n, init), last, j);
      if j in Run(n, init).tcp && Run(n, init).tcp[j].carrier && Run(n, init).tcp[j].socket.reset {
        CarrierSafe(n, init, j);
      }
    }
  }

  lemma CarrierStep(n: Net, e: Event, j: nat)
    requires j in Step(n, e).tcp && Step(n, e).tcp[j].carrier && Step(n, e).tcp[j].socket.reset
    ensures || (j in n.tcp && n.tcp[j].carrier && n.tcp[j].socket.reset)
            || (e.Service? && e.id == j && e.pass.appGone)
  {
    hide Serviced, IngestStep, DrainFrom;
    if j !in n.tcp {
      OpensOnly(n, e, j);
    } else {
      match e
      case Ingest(d) => OtherClocks(n, d, j);
      case DrainBacklog => DrainClocks(n.(backlog := []), n.backlog, j);
      case Service(id, pass) =>
        if id == j && !pass.appGone {
          SameCarrier(n.txBuf, n.orphanLinger, n.tcp[j], pass);
          if n.tcp[j].carrier && !n.tcp[j].socket.reset {
            CarrierPass(n.txBuf, n.orphanLinger, n.tcp[j], pass);
          }
        }
      case _ =>
    }
  }

  lemma SameCarrier(txBuf: nat, linger: Time, f: Flow, pass: Pass)
    ensures var r := Serviced(txBuf, linger, f, pass); r.Some? ==> r.value.carrier == f.carrier
  {
    hide Settled, Ended;
    var p := Polled(f, pass);
    SettledKeepsCarrier(txBuf, p, pass);
    SettledKeepsCarrier(txBuf, p.(established := true), pass);
    EndedKeepsCarrier(linger, Settled(txBuf, p, pass), pass);
    EndedKeepsCarrier(linger, Settled(txBuf, p.(established := true), pass), pass);
  }

  lemma SettledKeepsCarrier(txBuf: nat, f: Flow, pass: Pass)
    ensures Settled(txBuf, f, pass).carrier == f.carrier
  {
    hide Draining, StallsBefore, NewStall, CloseTo, Flaps, Uplink, Budget;
    UplinkKeepsCarrier(f, pass);
  }

  lemma UplinkKeepsCarrier(f: Flow, pass: Pass)
    ensures Uplink(f, pass).carrier == f.carrier
  {
  }

  lemma EndedKeepsCarrier(linger: Time, f: Flow, pass: Pass)
    ensures var r := Ended(linger, f, pass); r.Some? ==> r.value.carrier == f.carrier
  {
    hide CloseTo, Elapsed;
  }
}
