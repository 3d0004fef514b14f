/** When the stack asks a flow's socket to close, and what of the flow's stream is then in it. */
module Closing {
  import opened Net
  import opened Conservation
  import Liveness

  lemma SettledFin(txBuf: nat, f: Flow, pass: Pass)
    requires !f.socket.finAsked
    ensures var g := Settled(txBuf, f, pass); g.socket.finAsked ==> g.halfClosed && g.pending == []
  {
    hide Uplink, Draining, NewStall, StallsBefore;
    UplinkFin(f, pass);
  }

  lemma UplinkFin(f: Flow, pass: Pass)
    ensures Uplink(f, pass).socket.finAsked == f.socket.finAsked
    ensures Uplink(f, pass).socket.phase == f.socket.phase
    ensures f.socket.finAsked ==> Uplink(f, pass).socket == f.socket
  {
  }

  /** Whether the pass finds the peer's side closed, or nobody left to read. */
  predicate Leaving(pass: Pass) { pass.phase == CloseWait || pass.appGone }

  /** Without either, a close is asked for only by a half-closed flow with nothing pending. */
  lemma ServicedFin(txBuf: nat, linger: Time, f: Flow, pass: Pass)
    requires !f.socket.finAsked && !Leaving(pass)
    ensures var r := Serviced(txBuf, linger, f, pass);
            r.Some? && r.value.socket.finAsked ==> r.value.halfClosed && r.value.pending == []
  {
    hide Settled;
    var p := Polled(f, pass);
    var connected := p.socket.phase == Established || p.socket.phase == CloseWait;
    var g := if connected then p.(established := true) else p;
    SettledFin(txBuf, g, pass);
    SettledPhase(txBuf, g, pass);
  }

  lemma SettledPhase(txBuf: nat, f: Flow, pass: Pass)
    ensures var g := Settled(txBuf, f, pass); g.socket.phase == CloseWait ==> f.socket.phase == CloseWait
  {
    hide Uplink, Draining, NewStall, StallsBefore;
    UplinkFin(f, pass);
  }

  /** A close is asked for over octets that are still pending exactly when a pass over a connected flow that
      does not flap finds that its socket has not room for all, or takes none, and that the peer has closed its
      side, or the app is gone and the flow is left to linger. */
  lemma FinOverPending(txBuf: nat, linger: Time, f: Flow, pass: Pass)
    requires !f.socket.finAsked
    ensures var r := Serviced(txBuf, linger, f, pass);
            var p := Polled(f, pass).(established := true);
            (r.Some? && r.value.socket.finAsked && r.value.pending != []) <==>
            && Liveness.Look(f, pass).Some? && !Flaps(Uplink(p, pass), pass.now)
            && f.pending != [] && (CanSend(p.socket) ==> pass.room < |f.pending|)
            && ClosesOver(linger, p, pass)
  {
    hide Settled, Uplink, Flaps, Ended, ClosesOver;
    var g := Polled(f, pass).(established := true);
    if Liveness.Look(f, pass).Some? {
      if Flaps(Uplink(g, pass), pass.now) {
        SettledFlap(txBuf, g, pass);
        EndedPending(linger, Settled(txBuf, g, pass), pass);
      } else {
        SettledOpen(txBuf, g, pass);
        EndedFin(linger, Settled(txBuf, g, pass), pass);
        if Settled(txBuf, g, pass).pending != [] {
          ClosesAlike(linger, Settled(txBuf, g, pass), g, pass);
        }
      }
    }
  }

  /** Whether the end of the pass asks the socket of `f` to close, however much is pending: the app is gone and
      the flow lingers, or the peer has closed its side. */
  predicate ClosesOver(linger: Time, f: Flow, pass: Pass) {
    if pass.appGone then
      && !pass.canRecv && linger > 0 && (f.orphanedAt.None? || Elapsed(pass.now, f.orphanedAt.value) < linger)
      && (f.socket.phase == SynReceived || f.socket.phase == Established || f.socket.phase == CloseWait)
    else f.socket.phase == CloseWait
  }

  lemma ClosesAlike(linger: Time, f: Flow, g: Flow, pass: Pass)
    requires f.orphanedAt == g.orphanedAt && f.socket.phase == g.socket.phase
    ensures ClosesOver(linger, f, pass) == ClosesOver(linger, g, pass)
  {
  }

  lemma SettledFlap(txBuf: nat, f: Flow, pass: Pass)
    requires Flaps(Uplink(f, pass), pass.now)
    ensures Settled(txBuf, f, pass).pending == []
  {
    hide Draining, NewStall, StallsBefore, Flaps, Uplink;
  }

  lemma EndedPending(linger: Time, f: Flow, pass: Pass)
    ensures var r := Ended(linger, f, pass); r.Some? ==> r.value.pending == f.pending
  {
  }

  lemma SettledOpen(txBuf: nat, f: Flow, pass: Pass)
    requires !f.socket.finAsked && !Flaps(Uplink(f, pass), pass.now)
    ensures var g := Settled(txBuf, f, pass);
            && (g.pending != [] <==> f.pending != [] && (CanSend(f.socket) ==> pass.room < |f.pending|))
            && (g.pending != [] ==> !g.socket.finAsked)
            && g.orphanedAt == f.orphanedAt && (g.pending != [] ==> g.socket.phase == f.socket.phase)
  {
    hide Draining, NewStall, StallsBefore, Flaps, Uplink;
    UplinkFin(f, pass);
    UplinkPending(f, pass);
  }

  lemma UplinkPending(f: Flow, pass: Pass)
    ensures Uplink(f, pass).pending != [] <==> f.pending != [] && (CanSend(f.socket) ==> pass.room < |f.pending|)
    ensures Uplink(f, pass).orphanedAt == f.orphanedAt
  {
  }

  lemma EndedFin(linger: Time, f: Flow, pass: Pass)
    requires f.pending != [] ==> !f.socket.finAsked
    ensures var r := Ended(linger, f, pass);
            (r.Some? && r.value.socket.finAsked && r.value.pending != []) <==>
            (f.pending != [] && ClosesOver(linger, f, pass))
  {
  }

  /** A socket asked to close takes no more octets, over any run that follows. */
  lemma ServicedFrozen(txBuf: nat, linger: Time, f: Flow, pass: Pass)
    requires f.socket.finAsked
    ensures var r := Serviced(txBuf, linger, f, pass);
            r.Some? ==> r.value.socket.finAsked && r.value.socket.accepted == f.socket.accepted
  {
    hide Settled, Ended;
    var p := Polled(f, pass);
    var connected := p.socket.phase == Established || p.socket.phase == CloseWait;
    var g := if connected then p.(established := true) else p;
    SettledFrozen(txBuf, g, pass);
    EndedFrozen(linger, Settled(txBuf, g, pass), pass);
  }

  lemma EndedFrozen(linger: Time, f: Flow, pass: Pass)
    requires f.socket.finAsked
    ensures var r := Ended(linger, f, pass);
            r.Some? ==> r.value.socket.finAsked && r.value.socket.accepted == f.socket.accepted
  {
  }

  lemma SettledFrozen(txBuf: nat, f: Flow, pass: Pass)
    requires f.socket.finAsked
    ensures var g := Settled(txBuf, f, pass); g.socket.finAsked && g.socket.accepted == f.socket.accepted
  {
    hide Uplink, Draining, NewStall, StallsBefore;
    UplinkFin(f, pass);
  }

  lemma StepFrozen(n: Net, e: Event, j: nat)
    requires Issued(n) && Lawful(n, e) && j in n.tcp && n.tcp[j].socket.finAsked && j in Step(n, e).tcp
    ensures var s := Step(n, e).tcp[j].socket; s.finAsked && s.accepted == n.tcp[j].socket.accepted
  {
    hide Serviced, IngestStep;
    match e
    case Ingest(d) => SocketKept(n, d, j);
    case DrainBacklog => DrainKeeps(n.(backlog := []), n.backlog, j);
    case Service(id, pass) => ServicedFrozen(n.txBuf, n.orphanLinger, n.tcp[j], pass);
    case _ =>
  }

  lemma StepGone(n: Net, e: Event, j: nat)
    requires j < n.nextId && j !in n.tcp
    ensures j !in Step(n, e).tcp && j < Step(n, e).nextId
  {
    hide Serviced, IngestStep;
    IdsGrow(n, e);
    match e
    case Ingest(d) => SocketKept(n, d, j);
    case DrainBacklog => DrainKeeps(n.(backlog := []), n.backlog, j);
    case _ =>
  }

  /** From the close on, what is pending or comes later never reaches the socket. */
  lemma {:induction false} FrozenForGood(n: Net, events: seq<Event>, j: nat)
    requires Issued(n) && LawfulRun(n, events) && j in n.tcp && n.tcp[j].socket.finAsked
    ensures Issued(Run(n, events)) && j < Run(n, events).nextId
    ensures j in Run(n, events).tcp ==>
              var s := Run(n, events).tcp[j].socket; s.finAsked && s.accepted == n.tcp[j].socket.accepted
    decreases |events|
  {
    hide Step;
    if events != [] {
      var init, last := events[..|events| - 1], events[|events| - 1];
      FrozenForGood(n, init, j);
      var m := Run(n, init);
      IssuedStep(m, last);
      IdsGrow(m, last);
      if j !in m.tcp {
        StepGone(m, last, j);
      } else if j in Step(m, last).tcp {
        StepFrozen(m, last, j);
      }
    }
  }

  /** No pass of flow `j` finds it leaving. */
  ghost predicate Undisturbed(events: seq<Event>, j: nat) {
    forall e | e in events && e.Service? && e.id == j :: !Leaving(e.pass)
  }

  /** Whether the socket of `j`, when asked to close, holds every octet before some close. */
  ghost predicate ClosedWhole(n: Net, heard: seq<Token>, j: nat) {
    j in n.tcp && !n.tcp[j].socket.reset && n.tcp[j].socket.finAsked ==>
      exists upTo :: upTo <= heard && Fin in upTo && Octets(upTo) == n.tcp[j].socket.accepted
  }

  /** Over every run whose passes never find flow `j` leaving, a close is asked for only once every
      octet handed in before a close of the app's is in the socket. */
  lemma {:induction false} FinAfterEveryOctet(n: Net, events: seq<Event>, j: nat)
    requires Fresh(n) && LawfulRun(n, events) && Undisturbed(events, j)
    ensures ClosedWhole(Run(n, events), Heard(events, j), j)
    decreases |events|
  {
    hide Step, Octets;
    if events != [] {
      var init, last := events[..|events| - 1], events[|events| - 1];
      assert forall e | e in init :: e in events;
      FinAfterEveryOctet(n, init, j);
      StreamConserved(n, init, j);
      StreamConserved(n, events, j);
      assert last in events;
      StepClosedWhole(Run(n, init), last, Heard(init, j), Heard(events, j), j);
    }
  }

  lemma StepClosedWhole(n: Net, e: Event, before: seq<Token>, after: seq<Token>, j: nat)
    requires Issued(n) && Lawful(n, e) && before <= after
    requires ClosedWhole(n, before, j) && Conserves(Step(n, e), after, j)
    requires e.Service? && e.id == j ==> !Leaving(e.pass)
    ensures ClosedWhole(Step(n, e), after, j)
  {
    hide Octets, Rest, IngestStep, Serviced;
    var m := Step(n, e);
    if j in m.tcp && !m.tcp[j].socket.reset && m.tcp[j].socket.finAsked {
      StepFin(n, e, j);
      if j in n.tcp && n.tcp[j].socket.finAsked {
        StepFrozen(n, e, j);
        var upTo :| upTo <= before && Fin in upTo && Octets(upTo) == n.tcp[j].socket.accepted;
        assert upTo <= after;
      } else {
        var taken :| Took(m.tcp[j], taken) && after == taken + Rest(m.backlog, j);
        assert taken <= after && m.tcp[j].socket.accepted + [] == m.tcp[j].socket.accepted;
      }
    }
  }

  lemma StepFin(n: Net, e: Event, j: nat)
    requires Issued(n) && j in Step(n, e).tcp && Step(n, e).tcp[j].socket.finAsked
    requires e.Service? && e.id == j ==> !Leaving(e.pass)
    requires !Step(n, e).tcp[j].socket.reset
    ensures j in n.tcp && !n.tcp[j].socket.reset
    ensures !n.tcp[j].socket.finAsked ==> Step(n, e).tcp[j].halfClosed && Step(n, e).tcp[j].pending == []
  {
    hide Serviced, IngestStep;
    match e
    case Ingest(d) => SocketKept(n, d, j);
    case DrainBacklog => DrainKeeps(n.(backlog := []), n.backlog, j);
    case Service(id, pass) =>
      if id == j {
        ServicedStream(n.txBuf, n.orphanLinger, n.tcp[j], pass);
        if !n.tcp[j].socket.finAsked {
          ServicedFin(n.txBuf, n.orphanLinger, n.tcp[j], pass);
        }
      }
    case _ =>
  }

  /** A pass that keeps a flow asks for its close exactly when it comes to a connected flow that does not flap, and
      either the app has closed and the socket has taken all that was pending, or the peer has closed its side, or
      the app is gone and the flow is left to linger. */
  lemma FinAskedIff(txBuf: nat, linger: Time, f: Flow, pass: Pass)
    requires !f.socket.finAsked && Serviced(txBuf, linger, f, pass).Some?
    ensures var p := Polled(f, pass).(established := true);
            Serviced(txBuf, linger, f, pass).value.socket.finAsked <==>
            && Liveness.Look(f, pass).Some? && !Flaps(Uplink(p, pass), pass.now)
            && ((f.halfClosed && (f.pending == [] || (CanSend(p.socket) && pass.room >= |f.pending|))
                 && Closable(p.socket.phase))
                || ClosesOver(linger, p, pass))
  {
    hide Settled, Uplink, Flaps, Ended, ClosesOver, Polled, CloseTo, Liveness.Look;
    Liveness.ServicedChecked(txBuf, linger, f, pass);
    PolledFin(f, pass);
    if Liveness.Look(f, pass).Some? {
      var p := Polled(f, pass).(established := true);
      UplinkPending(p, pass);
      SettledAsks(txBuf, p, pass);
      EndedAsks(linger, Settled(txBuf, p, pass), pass);
      AsksAlike(linger, p, Settled(txBuf, p, pass), pass);
    }
  }

  predicate Closable(phase: Phase) {
    phase == Listen || phase == SynSent || phase == SynReceived || phase == Established || phase == CloseWait
  }

  lemma PolledFin(f: Flow, pass: Pass)
    ensures var p := Polled(f, pass);
            p.socket.finAsked == f.socket.finAsked && p.pending == f.pending && p.halfClosed == f.halfClosed
  {
  }

  lemma SettledAsks(txBuf: nat, f: Flow, pass: Pass)
    requires !f.socket.finAsked
    ensures var g, u := Settled(txBuf, f, pass), Uplink(f, pass);
            var closes := f.halfClosed && u.pending == [] && !Flaps(u, pass.now);
            && g.socket.finAsked == (closes && Closable(f.socket.phase))
            && g.socket.phase == (if Flaps(u, pass.now) then Closed
                                  else if closes then CloseTo(f.socket.phase) else f.socket.phase)
            && g.orphanedAt == f.orphanedAt
  {
    hide Measured, Uplink, Flaps;
    UplinkFin(f, pass);
    UplinkHalf(f, pass);
    MeasuredFin(txBuf, f, pass);
  }

  lemma UplinkHalf(f: Flow, pass: Pass)
    ensures Uplink(f, pass).halfClosed == f.halfClosed && Uplink(f, pass).orphanedAt == f.orphanedAt
  {
  }

  lemma MeasuredFin(txBuf: nat, f: Flow, pass: Pass)
    ensures var g, u := Measured(txBuf, f, pass), Uplink(f, pass);
            && g.socket == u.socket && g.pending == u.pending && g.halfClosed == u.halfClosed
            && g.orphanedAt == u.orphanedAt
  {
    hide Uplink, Draining, NewStall, StallsBefore, Budget, Publish;
  }

  lemma EndedAsks(linger: Time, g: Flow, pass: Pass)
    ensures var r := Ended(linger, g, pass);
            r.Some? ==> (r.value.socket.finAsked <==> g.socket.finAsked || ClosesOver(linger, g, pass))
  {
  }

  /** Whether the close at the end of the pass is asked for does not depend on one in its middle. */
  lemma AsksAlike(linger: Time, p: Flow, g: Flow, pass: Pass)
    requires g.orphanedAt == p.orphanedAt
    ensures g.socket.phase == p.socket.phase ==> (ClosesOver(linger, g, pass) <==> ClosesOver(linger, p, pass))
    ensures g.socket.phase == CloseTo(p.socket.phase) && Closable(p.socket.phase) ==> !ClosesOver(linger, g, pass)
    ensures !Closable(p.socket.phase) ==> !ClosesOver(linger, p, pass)
    ensures !Closable(p.socket.phase) ==> CloseTo(p.socket.phase) == p.socket.phase
    ensures g.socket.phase == Closed ==> !ClosesOver(linger, g, pass)
  {
  }
}
