/** The turns of the loop, and the wait of a writer at its gate. */
module Scheduling {
  import opened Bytes
  import opened Net
  import opened Admission
  import opened Conservation
  import opened Liveness
  import opened NetObjects

  const MAX_INGEST_PER_TICK := 512
  const MAX_APP_INGEST_PER_TICK := 512
  const MAX_CMD_PER_TICK := 64
  const CREDIT_WAIT_STEP := 2
  const CREDIT_WAIT_MAX := 20_000

  // ---- Commands ----

  /** A command, with whether the socket takes the connect or the bind it asks for. */
  datatype Cmd = OpenTcp(carrier: bool, connects: bool) | OpenUdpFlow(binds: bool) | SetAddrs

  predicate Opens(cmd: Cmd) { (cmd.OpenTcp? && cmd.connects) || (cmd.OpenUdpFlow? && cmd.binds) }

  /** The events that obeying `cmd` is. */
  function Order(cmd: Cmd, now: Time): seq<Event> {
    if !Opens(cmd) then [] else if cmd.OpenTcp? then [Open(cmd.carrier, now)] else [OpenUdp]
  }

  function Orders(cmds: seq<Cmd>, now: Time): seq<Event>
    decreases |cmds|
  {
    if cmds == [] then [] else Orders(cmds[..|cmds| - 1], now) + Order(cmds[|cmds| - 1], now)
  }

  // ---- What a log of the machine's events says of the queues ----

  /** The messages that `log` ingests. */
  function Ingested(log: seq<Event>): seq<DataIn>
    decreases |log|
  {
    if log == [] then []
    else
      var e := log[|log| - 1];
      Ingested(log[..|log| - 1]) + if e.Ingest? then [e.d] else []
  }

  function OpeningOf(e: Event): seq<Cmd> {
    match e
    case Open(carrier, _) => [OpenTcp(carrier, true)]
    case OpenUdp => [OpenUdpFlow(true)]
    case _ => []
  }

  /** The commands whose flows `log` opens. */
  function Opened(log: seq<Event>): seq<Cmd>
    decreases |log|
  {
    if log == [] then [] else Opened(log[..|log| - 1]) + OpeningOf(log[|log| - 1])
  }

  /** The commands of `cmds` that open a flow. */
  function Opening(cmds: seq<Cmd>): seq<Cmd>
    decreases |cmds|
  {
    if cmds == [] then []
    else
      var cmd := cmds[|cmds| - 1];
      Opening(cmds[..|cmds| - 1]) + if Opens(cmd) then [cmd] else []
  }

  lemma {:induction false} RunAppend(n: Net, a: seq<Event>, b: seq<Event>)
    ensures Run(n, a + b) == Run(Run(n, a), b)
    decreases |b|
  {
    hide Step;
    if b == [] {
      assert a + b == a;
    } else {
      RunAppend(n, a, b[..|b| - 1]);
      assert (a + b)[..|a + b| - 1] == a + b[..|b| - 1];
    }
  }

  lemma RunNothing()
    ensures forall n :: Run(n, []) == n
  {
  }

  lemma {:induction false} SaysAppend(a: seq<Event>, b: seq<Event>)
    ensures Ingested(a + b) == Ingested(a) + Ingested(b) && Opened(a + b) == Opened(a) + Opened(b)
    decreases |b|
  {
    hide OpeningOf;
    if b == [] {
      assert a + b == a;
      assert Ingested(a) + [] == Ingested(a) && Opened(a) + [] == Opened(a);
    } else {
      var init, e := b[..|b| - 1], b[|b| - 1];
      SaysAppend(a, init);
      assert (a + b)[..|a + b| - 1] == a + init;
      var d := if e.Ingest? then [e.d] else [];
      assert Ingested(a) + Ingested(init) + d == Ingested(a) + (Ingested(init) + d);
      assert Opened(a) + Opened(init) + OpeningOf(e) == Opened(a) + (Opened(init) + OpeningOf(e));
    }
  }

  lemma {:induction false} OpeningAppend(a: seq<Cmd>, b: seq<Cmd>)
    ensures Opening(a + b) == Opening(a) + Opening(b)
    decreases |b|
  {
    if b == [] {
      assert a + b == a;
      assert Opening(a) + [] == Opening(a);
    } else {
      var init, cmd := b[..|b| - 1], b[|b| - 1];
      OpeningAppend(a, init);
      assert (a + b)[..|a + b| - 1] == a + init;
      var last := if Opens(cmd) then [cmd] else [];
      assert Opening(a) + Opening(init) + last == Opening(a) + (Opening(init) + last);
    }
  }

  lemma {:induction false} IngestsSay(ds: seq<DataIn>)
    ensures Ingested(Ingests(ds)) == ds && Opened(Ingests(ds)) == []
    decreases |ds|
  {
    if ds != [] {
      var init := ds[..|ds| - 1];
      IngestsSay(init);
      assert Ingests(ds)[..|ds| - 1] == Ingests(init);
    }
  }

  lemma {:induction false} OrdersSay(cmds: seq<Cmd>, now: Time)
    ensures Ingested(Orders(cmds, now)) == [] && Opened(Orders(cmds, now)) == Opening(cmds)
    decreases |cmds|
  {
    if cmds != [] {
      var init, cmd := cmds[..|cmds| - 1], cmds[|cmds| - 1];
      OrdersSay(init, now);
      SaysAppend(Orders(init, now), Order(cmd, now));
      OrderSays(cmd, now);
    }
  }

  lemma OrderSays(cmd: Cmd, now: Time)
    ensures Ingested(Order(cmd, now)) == [] && Opened(Order(cmd, now)) == if Opens(cmd) then [cmd] else []
  {
    if Opens(cmd) {
      assert Order(cmd, now)[..0] == [];
    }
  }

  // ---- The loop's turns ----

  datatype Wake = ByInbound | ByCmd | ByApp | ByTimer

  /** What one round of the loop meets: what the senders put into the queues before it, what ends the wait
      when there was one, what the service pass finds of each flow, and the clock. */
  datatype Round = Round(
    inbound: seq<seq<Byte>>, app: seq<DataIn>, cmds: seq<Cmd>, wake: Wake, passes: seq<(nat, Pass)>, now: Time)

  /** What one round takes from the queues. */
  datatype Served = Served(inbound: seq<seq<Byte>>, app: seq<DataIn>, cmds: seq<Cmd>)

  /** The admission behind a message that a sender puts into the app queue. */
  function AdmitOf(d: DataIn): seq<Event> { if d.Tcp? then [Admit(d.id, |d.data|)] else [] }

  function Admissions(ds: seq<DataIn>): seq<Event>
    decreases |ds|
  {
    if ds == [] then [] else Admissions(ds[..|ds| - 1]) + AdmitOf(ds[|ds| - 1])
  }

  function Services(passes: seq<(nat, Pass)>): seq<Event> {
    seq(|passes|, i requires 0 <= i < |passes| => Service(passes[i].0, passes[i].1))
  }

  function Upkeep(r: Round): seq<Event> { Services(r.passes) + [DrainBacklog, Reap(r.now)] }

  /** The events that taking `s` from the queues is. */
  function Taken(s: Served, now: Time): seq<Event> { Ingests(s.app) + Orders(s.cmds, now) }

  lemma QueuesNothing(now: Time)
    ensures Taken(Served([], [], []), now) == []
  {
  }

  lemma TakenSays(s: Served, now: Time)
    ensures Ingested(Taken(s, now)) == s.app && Opened(Taken(s, now)) == Opening(s.cmds)
  {
    hide Ingests, Orders, Ingested, Opened, Opening;
    SaysAppend(Ingests(s.app), Orders(s.cmds, now));
    IngestsSay(s.app);
    OrdersSay(s.cmds, now);
    assert s.app + [] == s.app && [] + Opening(s.cmds) == Opening(s.cmds);
  }

  lemma ArrivalSays(r: Round, woken: Served)
    ensures var log := Admissions(r.app) + Taken(woken, r.now);
            Ingested(log) == woken.app && Opened(log) == Opening(woken.cmds)
  {
    hide Taken, Admissions, Ingested, Opened, Opening;
    SaysAppend(Admissions(r.app), Taken(woken, r.now));
    TakenSays(woken, r.now);
    AdmissionsQuiet(r.app);
    QuietSays(Admissions(r.app));
    assert [] + woken.app == woken.app && [] + Opening(woken.cmds) == Opening(woken.cmds);
  }

  function RoundLog(r: Round, woken: Served, turned: Served): seq<Event> {
    Admissions(r.app) + Taken(woken, r.now) + Upkeep(r) + Taken(turned, r.now)
  }

  lemma RoundRun(n: Net, r: Round, woken: Served, turned: Served)
    ensures Run(n, RoundLog(r, woken, turned)) ==
            Run(Run(Run(n, Admissions(r.app) + Taken(woken, r.now)), Upkeep(r)), Taken(turned, r.now))
  {
    hide Run, Taken, Upkeep, Admissions;
    var arrival := Admissions(r.app) + Taken(woken, r.now);
    RunAppend(n, arrival, Upkeep(r));
    RunAppend(n, arrival + Upkeep(r), Taken(turned, r.now));
  }

  lemma RoundSays(r: Round, woken: Served, turned: Served)
    ensures var log := RoundLog(r, woken, turned);
            Ingested(log) == woken.app + turned.app && Opened(log) == Opening(woken.cmds + turned.cmds)
  {
    hide Taken, Admissions, Ingested, Opened, Opening;
    var arrival := Admissions(r.app) + Taken(woken, r.now);
    ArrivalSays(r, woken);
    SaysAppend(arrival, Upkeep(r));
    QuietSays(Upkeep(r));
    assert woken.app + [] == woken.app && Opening(woken.cmds) + [] == Opening(woken.cmds);
    SaysAppend(arrival + Upkeep(r), Taken(turned, r.now));
    TakenSays(turned, r.now);
    OpeningAppend(woken.cmds, turned.cmds);
  }

  // ---- The clock and the size of a round ----

  /** Whether the passes of a round read the clock that the round reads. */
  ghost predicate OneClock(r: Round) { forall p | p in r.passes :: p.1.now == r.now }

  /** Whether every event of `log` that has a time is at `now`. */
  ghost predicate AllAt(log: seq<Event>, now: Time) { forall e | e in log && TimeOf(e).Some? :: TimeOf(e).value == now }

  lemma {:induction false} OrdersAt(cmds: seq<Cmd>, now: Time)
    ensures AllAt(Orders(cmds, now), now)
    decreases |cmds|
  {
    if cmds != [] {
      OrdersAt(cmds[..|cmds| - 1], now);
    }
  }

  lemma TakenAt(s: Served, now: Time)
    ensures AllAt(Taken(s, now), now)
  {
    hide Orders;
    OrdersAt(s.cmds, now);
  }

  lemma ArrivalClock(r: Round, woken: Served)
    ensures AllAt(Admissions(r.app) + Taken(woken, r.now), r.now)
  {
    hide Taken, Admissions;
    AdmissionsQuiet(r.app);
    TakenAt(woken, r.now);
  }

  lemma RoundClock(r: Round, woken: Served, turned: Served)
    ensures OneClock(r) ==> AllAt(RoundLog(r, woken, turned), r.now)
  {
    hide Taken, Admissions;
    ArrivalClock(r, woken);
    TakenAt(turned, r.now);
    if OneClock(r) {
      forall e | e in Services(r.passes)
        ensures TimeOf(e) == Some(r.now)
      {
        var i :| 0 <= i < |r.passes| && Services(r.passes)[i] == e;
        assert r.passes[i] in r.passes;
      }
    }
  }

  lemma {:induction false} TimedAppend(a: seq<Event>, b: seq<Event>, now: Time)
    requires Timed(a) && Clock(a) <= now && AllAt(b, now)
    ensures Timed(a + b) && Clock(a + b) <= now
    decreases |b|
  {
    if b == [] {
      assert a + b == a;
    } else {
      var init, e := b[..|b| - 1], b[|b| - 1];
      assert e in b && forall x | x in init :: x in b;
      TimedAppend(a, init, now);
      assert (a + b)[..|a + b| - 1] == a + init && (a + b)[|a + b| - 1] == e;
    }
  }

  /** Without a message the backlog does not grow. */
  lemma {:induction false} QuietTotal(n: Net, log: seq<Event>)
    requires forall e | e in log :: !e.Ingest?
    ensures TotalSize(Run(n, log).backlog) <= TotalSize(n.backlog)
    decreases |log|
  {
    hide Step;
    if log != [] {
      var init, e := log[..|log| - 1], log[|log| - 1];
      assert e in log && forall x | x in init :: x in log;
      QuietTotal(n, init);
      StepTotal(Run(n, init), e);
    }
  }

  lemma {:induction false} RunFits(n: Net, log: seq<Event>)
    requires PendingFits(n)
    ensures PendingFits(Run(n, log))
    decreases |log|
  {
    hide Step, PendingFits;
    if log != [] {
      RunFits(n, log[..|log| - 1]);
      StepFits(Run(n, log[..|log| - 1]), log[|log| - 1]);
    }
  }

  lemma WithinLess(bytes: nat, less: nat, items: seq<DataIn>)
    requires less <= bytes
    ensures forall largest | Within(bytes, items, largest) :: Within(less, items, largest)
  {
  }

  lemma TakenOne(n: Net, now: Time)
    ensures Run(n, Taken(Served([], [], []), now)) == n
    ensures forall p: seq<seq<Byte>> :: Run(n, Taken(Served(p, [], []), now)) == n
    ensures forall cmd :: Run(n, Taken(Served([], [], [cmd]), now)) == Run(n, Order(cmd, now))
    ensures forall d :: Run(n, Taken(Served([], [d], []), now)) == IngestStep(n, d)
  {
    hide Order, IngestStep;
    forall p: seq<seq<Byte>>
      ensures Taken(Served(p, [], []), now) == []
    {
    }
    forall cmd: Cmd
      ensures Taken(Served([], [], [cmd]), now) == Order(cmd, now)
    {
      assert [cmd][..0] == [];
      assert Orders([cmd], now) == Orders([], now) + Order(cmd, now);
    }
    forall d: DataIn
      ensures Run(n, Taken(Served([], [d], []), now)) == IngestStep(n, d)
    {
      var log := Taken(Served([], [d], []), now);
      assert log == [Ingest(d)] && log[..0] == [];
    }
  }

  lemma {:induction false} QuietSays(log: seq<Event>)
    requires forall e | e in log :: !e.Ingest? && !e.Open? && !e.OpenUdp?
    ensures Ingested(log) == [] && Opened(log) == []
    decreases |log|
  {
    if log != [] {
      assert forall e | e in log[..|log| - 1] :: e in log;
      QuietSays(log[..|log| - 1]);
      assert log[|log| - 1] in log;
    }
  }

  lemma {:induction false} AdmissionsQuiet(ds: seq<DataIn>)
    ensures forall e | e in Admissions(ds) :: e.Admit?
    decreases |ds|
  {
    if ds != [] {
      AdmissionsQuiet(ds[..|ds| - 1]);
    }
  }

  class Driver {
    const stack: NetStack
    const backlog: Backlog
    const inbound: Channel<seq<Byte>>
    const app: Channel<DataIn>
    const cmds: Channel<Cmd>
    /** The packets handed to the stack to poll, from the first on. */
    var rx: seq<seq<Byte>>
    var preferAppData: bool

    constructor (
      stack: NetStack, backlog: Backlog, inbound: Channel<seq<Byte>>, app: Channel<DataIn>, cmds: Channel<Cmd>)
      ensures this.stack == stack && this.backlog == backlog && this.inbound == inbound
      ensures this.app == app && this.cmds == cmds && rx == [] && !preferAppData
    {
      this.stack, this.backlog, this.inbound, this.app, this.cmds := stack, backlog, inbound, app, cmds;
      rx, preferAppData := [], false;
    }

    ghost predicate Apart()
      reads this, backlog
    {
      && backlog.Valid()
      && inbound as object != app as object && inbound as object != cmds as object && app as object != cmds as object
    }

    ghost function Value(): Net
      reads this, stack, backlog
    {
      stack.Value(backlog.queue)
    }

    method DrainInbound(budget: nat) returns (moved: nat, done: bool)
      modifies this`rx, inbound`items
      ensures moved == Least(budget, |old(inbound.items)|)
      ensures inbound.items == old(inbound.items)[moved..] && rx == old(rx) + old(inbound.items)[..moved]
      ensures done == (moved < budget && inbound.closed)
    {
      moved, done := 0, false;
      while moved < budget
        invariant moved <= budget && moved <= |old(inbound.items)|
        invariant inbound.items == old(inbound.items)[moved..] && rx == old(rx) + old(inbound.items)[..moved]
      {
        var packet := inbound.TryRecv();
        if !packet.Got? {
          return moved, packet.Disconnected?;
        }
        rx := rx + [packet.item];
        moved := moved + 1;
      }
    }

    /** Opens the flow a command asks for, unless its socket refuses. */
    method HandleCmd(cmd: Cmd, now: Time)
      modifies stack
      ensures forall q :: stack.Value(q) == Run(old(stack.Value(q)), Order(cmd, now))
      ensures stack.tcp == if cmd.OpenTcp? && cmd.connects
                           then old(stack.tcp)[old(stack.nextId) := NewFlow(cmd.carrier, now, stack.connectFor)]
                           else old(stack.tcp)
      ensures stack.udp == if cmd.OpenUdpFlow? && cmd.binds then old(stack.udp)[old(stack.nextId) := []]
                           else old(stack.udp)
    {
      match cmd {
        case OpenTcp(carrier, connects) =>
          if !connects {
            return;
          }
          stack.tcp := stack.tcp[stack.nextId := NewFlow(carrier, now, stack.connectFor)];
          stack.nextId := stack.nextId + 1;
        case OpenUdpFlow(binds) =>
          if !binds {
            return;
          }
          stack.udp := stack.udp[stack.nextId := []];
          stack.nextId := stack.nextId + 1;
        case SetAddrs =>
      }
      assert Opens(cmd) ==> Order(cmd, now)[..0] == [];
    }

    method DrainCmds(budget: nat, now: Time) returns (moved: nat, done: bool)
      modifies stack, cmds`items
      ensures moved == Least(budget, |old(cmds.items)|) && cmds.items == old(cmds.items)[moved..]
      ensures forall q :: stack.Value(q) == Run(old(stack.Value(q)), Orders(old(cmds.items)[..moved], now))
      ensures done == (moved < budget && cmds.closed)
    {
      hide Order, Run;
      moved, done := 0, false;
      RunNothing();
      while moved < budget
        invariant moved <= budget && moved <= |old(cmds.items)| && cmds.items == old(cmds.items)[moved..]
        invariant forall q :: stack.Value(q) == Run(old(stack.Value(q)), Orders(old(cmds.items)[..moved], now))
      {
        var cmd := cmds.TryRecv();
        if !cmd.Got? {
          return moved, cmd.Disconnected?;
        }
        ghost var all := old(cmds.items)[..moved + 1];
        assert all[..moved] == old(cmds.items)[..moved] && all[moved] == cmd.item;
        HandleCmd(cmd.item, now);
        forall q
          ensures stack.Value(q) == Run(old(stack.Value(q)), Orders(all, now))
        {
          RunAppend(old(stack.Value(q)), Orders(all[..moved], now), Order(cmd.item, now));
        }
        moved := moved + 1;
      }
    }

    /** One turn: whichever of the two directions goes first, each queue is served once, with its own
        budget, and what the turn leaves behind does not depend on which went first. */
    method Turn(now: Time) returns (movedIn: nat, movedApp: nat, movedCmd: nat, closed: bool)
      requires Apart()
      modifies this`rx, this`preferAppData, stack, backlog, inbound`items, app`items, cmds`items
      ensures backlog.Valid() && preferAppData == !old(preferAppData)
      ensures movedIn == Least(512, |old(inbound.items)|)
      ensures inbound.items == old(inbound.items)[movedIn..] && rx == old(rx) + old(inbound.items)[..movedIn]
      ensures movedApp <= |old(app.items)| && app.items == old(app.items)[movedApp..]
      ensures backlog.bytes < 524_288 ==> movedApp == Least(512, |old(app.items)|)
      ensures movedCmd == Least(64, |old(cmds.items)|) && cmds.items == old(cmds.items)[movedCmd..]
      ensures Value() ==
              Run(old(Value()), Ingests(old(app.items)[..movedApp]) + Orders(old(cmds.items)[..movedCmd], now))
      ensures closed <==> || (movedIn < 512 && inbound.closed)
                          || (movedCmd < 64 && cmds.closed)
                          || (movedApp < 512 && backlog.bytes < 524_288 && app.closed)
      ensures forall largest | Within(old(backlog.bytes), old(app.items), largest) ::
                Within(backlog.bytes, app.items, largest)
    {
      hide Orders, Run, Ingests, Within;
      var doneIn, doneApp, doneCmd;
      if preferAppData {
        movedIn, doneIn := DrainInbound(MAX_INGEST_PER_TICK);
        movedApp, doneApp := stack.DrainAppData(backlog, app, MAX_APP_INGEST_PER_TICK);
      } else {
        movedApp, doneApp := stack.DrainAppData(backlog, app, MAX_APP_INGEST_PER_TICK);
        movedIn, doneIn := DrainInbound(MAX_INGEST_PER_TICK);
      }
      movedCmd, doneCmd := DrainCmds(MAX_CMD_PER_TICK, now);
      preferAppData := !preferAppData;
      closed := doneIn || doneApp || doneCmd;
      RunAppend(old(Value()), Ingests(old(app.items)[..movedApp]), Orders(old(cmds.items)[..movedCmd], now));
    }

    /** A writer that goes on counts its octets. */
    method AdmitOne(d: DataIn)
      modifies stack`tcp
      ensures Value() == Run(old(Value()), AdmitOf(d))
    {
      if d.Tcp? && d.id in stack.tcp {
        var st := stack.tcp[d.id];
        stack.tcp := stack.tcp[d.id := st.(credit := st.credit.(sent := st.credit.sent + |d.data|))];
      }
      assert d.Tcp? ==> AdmitOf(d)[..0] == [];
    }

    /** The senders' part: each message admitted and put at the end of its queue. */
    method Arrive(r: Round)
      requires Apart()
      modifies stack`tcp, inbound`items, app`items, cmds`items
      ensures inbound.items == old(inbound.items) + r.inbound && app.items == old(app.items) + r.app
      ensures cmds.items == old(cmds.items) + r.cmds
      ensures Value() == Run(old(Value()), Admissions(r.app))
    {
      hide Run, AdmitOf;
      inbound.items, cmds.items := inbound.items + r.inbound, cmds.items + r.cmds;
      var i := 0;
      RunNothing();
      while i < |r.app|
        invariant i <= |r.app| && app.items == old(app.items) + r.app[..i]
        invariant inbound.items == old(inbound.items) + r.inbound && cmds.items == old(cmds.items) + r.cmds
        invariant Value() == Run(old(Value()), Admissions(r.app[..i]))
      {
        assert r.app[..i + 1][..i] == r.app[..i];
        AdmitOne(r.app[i]);
        RunAppend(old(Value()), Admissions(r.app[..i]), AdmitOf(r.app[i]));
        app.items := app.items + [r.app[i]];
        i := i + 1;
      }
      assert r.app[..i] == r.app;
    }

    /** The end of a wait: at most one message, from whichever queue woke the loop. */
    method WakeUp(wake: Wake, now: Time) returns (ghost served: Served, closed: bool)
      requires Apart()
      modifies this`rx, stack, backlog, inbound`items, app`items, cmds`items
      ensures backlog.Valid() && old(inbound.items) == served.inbound + inbound.items
      ensures old(app.items) == served.app + app.items && old(cmds.items) == served.cmds + cmds.items
      ensures rx == old(rx) + served.inbound && |served.inbound| + |served.app| + |served.cmds| <= 1
      ensures Value() == Run(old(Value()), Taken(served, now))
      ensures closed ==> inbound.closed || app.closed || cmds.closed
      ensures forall largest | Within(old(backlog.bytes), old(app.items), largest) ::
                Within(backlog.bytes, app.items, largest)
    {
      hide IngestStep, Run, Order, Within, Taken;
      TakenOne(Value(), now);
      served, closed := Served([], [], []), false;
      match wake {
        case ByInbound =>
          var packet := inbound.TryRecv();
          closed := packet.Disconnected?;
          if packet.Got? {
            rx := rx + [packet.item];
            served := served.(inbound := [packet.item]);
          }
        case ByCmd =>
          var cmd := cmds.TryRecv();
          closed := cmd.Disconnected?;
          if cmd.Got? {
            HandleCmd(cmd.item, now);
            served := served.(cmds := [cmd.item]);
          }
        case ByApp =>
          if backlog.bytes < MAX_BACKLOG_BYTES {
            var d := app.TryRecv();
            closed := d.Disconnected?;
            if d.Got? {
              ghost var before, bytes := Value(), backlog.bytes;
              stack.IngestOne(backlog, d.item);
              IngestTotal(before, d.item);
              WithinOne(bytes, d.item, app.items, backlog.bytes);
              assert [d.item] + app.items == old(app.items);
              served := served.(app := [d.item]);
            }
          }
        case ByTimer =>
      }
    }

    method ServiceAll(passes: seq<(nat, Pass)>)
      modifies stack`tcp
      ensures forall q :: stack.Value(q) == Run(old(stack.Value(q)), Services(passes))
    {
      hide ServiceStep;
      var i := 0;
      while i < |passes|
        invariant i <= |passes|
        invariant forall q :: stack.Value(q) == Run(old(stack.Value(q)), Services(passes[..i]))
      {
        stack.ServiceFlow(passes[i].0, passes[i].1);
        assert Services(passes[..i + 1])[..i] == Services(passes[..i]);
        i := i + 1;
      }
      assert passes[..i] == passes;
    }

    /** The upkeep of a round: the service pass, the backlog, the reaper. */
    method Maintain(r: Round)
      requires Apart()
      modifies stack, backlog
      ensures backlog.Valid() && Value() == Run(old(Value()), Upkeep(r)) && backlog.bytes <= old(backlog.bytes)
    {
      hide DrainStep, ReapStep;
      ServiceAll(r.passes);
      stack.DrainBacklogOnce(backlog);
      stack.ReapWedged(backlog, r.now);
      assert [DrainBacklog, Reap(r.now)][..1] == [DrainBacklog] && [DrainBacklog][..0] == [];
      RunAppend(old(Value()), Services(r.passes), [DrainBacklog, Reap(r.now)]);
      QuietTotal(old(Value()), Upkeep(r));
    }

    /** The arrivals before a round and, when the loop was waiting, the end of the wait. */
    method Begin(r: Round, waited: bool) returns (ghost woken: Served, closed: bool)
      requires Apart()
      modifies this`rx, stack, backlog, inbound`items, app`items, cmds`items
      ensures backlog.Valid() && Value() == Run(old(Value()), Admissions(r.app) + Taken(woken, r.now))
      ensures rx == old(rx) + woken.inbound && woken.inbound + inbound.items == old(inbound.items) + r.inbound
      ensures woken.app + app.items == old(app.items) + r.app && woken.cmds + cmds.items == old(cmds.items) + r.cmds
      ensures closed ==> inbound.closed || app.closed || cmds.closed
      ensures forall largest | Within(old(backlog.bytes), old(app.items) + r.app, largest) ::
                Within(backlog.bytes, app.items, largest)
    {
      hide Run, Orders, Ingests, Admissions, Within;
      Arrive(r);
      woken, closed := Served([], [], []), false;
      QueuesNothing(r.now);
      RunNothing();
      if waited {
        woken, closed := WakeUp(r.wake, r.now);
      }
      RunAppend(old(Value()), Admissions(r.app), Taken(woken, r.now));
    }

    /** One round of the loop after the arrivals before it: the end of a wait, the service pass, the backlog,
        the reaper, and a turn. It is a run of the machine whose messages and openings are what the round
        took from the queues, and it empties each queue or takes its budget's worth. */
    method Tick(r: Round, waited: bool)
      returns (ghost served: Served, ghost log: seq<Event>, progressed: bool, closed: bool)
      requires Apart()
      modifies this`rx, this`preferAppData, stack, backlog, inbound`items, app`items, cmds`items
      ensures backlog.Valid() && Value() == Run(old(Value()), log)
      ensures Ingested(log) == served.app && Opened(log) == Opening(served.cmds)
      ensures rx == old(rx) + served.inbound && served.inbound + inbound.items == old(inbound.items) + r.inbound
      ensures served.app + app.items == old(app.items) + r.app && served.cmds + cmds.items == old(cmds.items) + r.cmds
      ensures !closed ==> |served.inbound| >= 512 || inbound.items == []
      ensures !closed ==> |served.cmds| >= 64 || cmds.items == []
      ensures !closed && backlog.bytes < 524_288 ==>
                |served.app| >= 512 || app.items == []
      ensures closed ==> inbound.closed || app.closed || cmds.closed
      ensures forall largest | Within(old(backlog.bytes), old(app.items) + r.app, largest) ::
                Within(backlog.bytes, app.items, largest)
      ensures OneClock(r) ==> AllAt(log, r.now)
    {
      hide Run, Ingested, Opened, Opening, Upkeep, Admissions, Orders, Ingests, Within, AllAt, OneClock;
      progressed := false;
      ghost var woken;
      woken, closed := Begin(r, waited);
      served, log := woken, Admissions(r.app) + Taken(woken, r.now);
      ArrivalSays(r, woken);
      ArrivalClock(r, woken);
      if closed {
        return;
      }
      ghost var bytes := backlog.bytes;
      Maintain(r);
      WithinLess(bytes, backlog.bytes, app.items);
      ghost var waiting := Served(inbound.items, app.items, cmds.items);
      var movedIn, movedApp, movedCmd;
      movedIn, movedApp, movedCmd, closed := Turn(r.now);
      progressed := movedIn > 0 || movedApp > 0 || movedCmd > 0;
      ghost var turned := Served(waiting.inbound[..movedIn], waiting.app[..movedApp], waiting.cmds[..movedCmd]);
      RoundRun(old(Value()), r, woken, turned);
      RoundSays(r, woken, turned);
      RoundClock(r, woken, turned);
      log := RoundLog(r, woken, turned);
      served := Served(woken.inbound + turned.inbound, woken.app + turned.app, woken.cmds + turned.cmds);
      Continues(woken.inbound, waiting.inbound, movedIn);
      Continues(woken.app, waiting.app, movedApp);
      Continues(woken.cmds, waiting.cmds, movedCmd);
    }

    /** The loop over `rounds`, up to the first in which it finds a queue's senders gone. However much
        arrives on whichever queue, the command at position k is obeyed within k / 64 + 1 rounds, the packet
        at position k handed on within k / 512 + 1, and the app message at position k ingested within
        k / 512 + 1 rounds that end with the backlog below its bound; and all of it is one run of the
        machine. */
    method RunLoop(rounds: seq<Round>) returns (turns: nat, ghost served: Served, ghost logs: seq<seq<Event>>)
      requires Apart()
      modifies this`rx, this`preferAppData, stack, backlog, inbound`items, app`items, cmds`items
      ensures turns <= |rounds| && (turns < |rounds| ==> inbound.closed || app.closed || cmds.closed)
      ensures turns <= |logs| <= turns + 1 && |logs| <= |rounds|
      ensures backlog.Valid() && Value() == Run(old(Value()), Flatten(logs))
      ensures Ingested(Flatten(logs)) == served.app && Opened(Flatten(logs)) == Opening(served.cmds)
      ensures rx == old(rx) + served.inbound
      ensures old(cmds.items) <= served.cmds + cmds.items
      ensures old(inbound.items) <= served.inbound + inbound.items && old(app.items) <= served.app + app.items
      ensures forall k | 0 <= k < |old(cmds.items)| && k / 64 + 1 <= turns ::
                k < |served.cmds| && served.cmds[k] == old(cmds.items)[k]
      ensures forall k | 0 <= k < |old(inbound.items)| && k / 512 + 1 <= turns ::
                k < |served.inbound| && served.inbound[k] == old(inbound.items)[k]
      ensures forall k | && 0 <= k < |old(app.items)|
                         && k / 512 + 1 <= OpenRounds(old(Value()), logs[..turns]) ::
                k < |served.app| && served.app[k] == old(app.items)[k]
      ensures Named(old(Value()), old(app.items), rounds, logs) ==> LawfulRun(old(Value()), Flatten(logs))
      ensures OneClocked(rounds) ==> Timed(Flatten(logs))
      ensures forall largest: nat |
                Within(old(backlog.bytes), old(app.items), largest) && SmallRounds(rounds, largest) ::
                backlog.bytes < 524_288 + largest
      ensures PendingFits(old(Value())) ==> PendingFits(Value())
    {
      hide Run, Ingested, Opened, Opening, Flatten, Waits, OpenRounds, Within, SmallRounds, OneClocked, Timed, Clock,
           Named, LawfulRun, PendingFits, OneClock, AllAt;
      turns, served, logs := 0, Served([], [], []), [];
      ghost var n := Value();
      NothingYet(n);
      NothingNamed(n, app.items, rounds);
      WaitsNothing(inbound.items, MAX_INGEST_PER_TICK);
      WaitsNothing(cmds.items, MAX_CMD_PER_TICK);
      WaitsNothing(app.items, MAX_APP_INGEST_PER_TICK);
      var waited := false;
      while turns < |rounds|
        invariant turns <= |rounds| && |logs| == turns
        invariant backlog.Valid() && Value() == Run(n, Flatten(logs)) && rx == old(rx) + served.inbound
        invariant Ingested(Flatten(logs)) == served.app && Opened(Flatten(logs)) == Opening(served.cmds)
        invariant Waits(old(inbound.items), served.inbound, inbound.items, MAX_INGEST_PER_TICK, turns)
        invariant Waits(old(cmds.items), served.cmds, cmds.items, MAX_CMD_PER_TICK, turns)
        invariant Waits(old(app.items), served.app, app.items, MAX_APP_INGEST_PER_TICK, OpenRounds(n, logs))
        invariant Named(n, old(app.items), rounds, logs) ==> Lawfully(n, Flatten(logs), app.items)
        invariant OneClocked(rounds) ==> Punctual(rounds, turns, Flatten(logs))
        invariant forall largest
                    | Within(old(backlog.bytes), old(app.items), largest) && SmallRounds(rounds, largest) ::
                    Within(backlog.bytes, app.items, largest)
      {
        var r := rounds[turns];
        WithinMore(backlog.bytes, app.items, rounds, turns);
        ghost var more, log;
        ghost var before := Served(inbound.items, app.items, cmds.items);
        var progressed, closed;
        more, log, progressed, closed := Tick(r, waited);
        LogsSay(n, logs, log, served, more);
        WaitsOn(old(inbound.items), served.inbound, before.inbound, r.inbound, more.inbound, inbound.items,
                MAX_INGEST_PER_TICK, turns);
        WaitsOn(old(cmds.items), served.cmds, before.cmds, r.cmds, more.cmds, cmds.items, MAX_CMD_PER_TICK, turns);
        WaitsOn(old(app.items), served.app, before.app, r.app, more.app, app.items,
                MAX_APP_INGEST_PER_TICK, OpenRounds(n, logs));
        OpenRound(n, logs, log);
        LawfulOn(n, old(app.items), rounds, logs, log, before.app, more.app, app.items);
        PunctualOn(rounds, turns, logs, log);
        assert backlog.bytes == TotalSize(Value().backlog);
        served := Served(served.inbound + more.inbound, served.app + more.app, served.cmds + more.cmds);
        logs := logs + [log];
        if closed {
          assert logs[..turns] == logs[..|logs| - 1];
          break;
        }
        turns, waited := turns + 1, !progressed;
      }
      assert |logs| == turns ==> logs[..turns] == logs;
      LawfulAll(n, Flatten(logs), app.items);
      PunctualAll(rounds, Flatten(logs));
      WithinAll(backlog.bytes, app.items);
      if PendingFits(n) {
        RunFits(n, Flatten(logs));
      }
      WaitOver(old(inbound.items), served.inbound, inbound.items, MAX_INGEST_PER_TICK, turns);
      WaitOver(old(cmds.items), served.cmds, cmds.items, MAX_CMD_PER_TICK, turns);
      WaitOver(old(app.items), served.app, app.items, MAX_APP_INGEST_PER_TICK, OpenRounds(n, logs[..turns]));
    }
  }

  // ---- What makes the loop's run lawful and timed ----

  /** Whether every message names a flow that was given out before the round it comes in. */
  ghost predicate Named(n: Net, items: seq<DataIn>, rounds: seq<Round>, logs: seq<seq<Event>>)
    requires |logs| <= |rounds|
    decreases |logs|
  {
    if logs == [] then forall d | d in items :: d.id < n.nextId
    else
      var init := logs[..|logs| - 1];
      Named(n, items, rounds, init) && forall d | d in rounds[|init|].app :: d.id < Run(n, Flatten(init)).nextId
  }

  /** `log` is a lawful run, and what still waits names flows that it has given out. */
  ghost predicate Lawfully(n: Net, log: seq<Event>, items: seq<DataIn>) {
    LawfulRun(n, log) && forall d | d in items :: d.id < Run(n, log).nextId
  }

  lemma NothingNamed(n: Net, items: seq<DataIn>, rounds: seq<Round>)
    ensures Named(n, items, rounds, []) ==> Lawfully(n, Flatten([]), items)
    ensures Punctual(rounds, 0, Flatten([]))
  {
  }

  lemma {:induction false} LawfulAppend(n: Net, a: seq<Event>, b: seq<Event>)
    requires LawfulRun(n, a) && forall d | d in Ingested(b) :: d.id < Run(n, a).nextId
    ensures LawfulRun(n, a + b) && Run(n, a).nextId <= Run(n, a + b).nextId
    decreases |b|
  {
    hide Step;
    if b == [] {
      assert a + b == a;
    } else {
      var init, e := b[..|b| - 1], b[|b| - 1];
      assert forall d | d in Ingested(init) :: d in Ingested(b);
      LawfulAppend(n, a, init);
      assert (a + b)[..|a + b| - 1] == a + init && (a + b)[|a + b| - 1] == e;
      assert e.Ingest? ==> e.d in Ingested(b);
      IdsGrow(Run(n, a + init), e);
    }
  }

  lemma LawfulOn(n: Net, items: seq<DataIn>, rounds: seq<Round>, logs: seq<seq<Event>>, log: seq<Event>,
                 before: seq<DataIn>, taken: seq<DataIn>, left: seq<DataIn>)
    requires |logs| < |rounds| && (Named(n, items, rounds, logs) ==> Lawfully(n, Flatten(logs), before))
    requires Ingested(log) == taken && taken + left == before + rounds[|logs|].app
    ensures Named(n, items, rounds, logs + [log]) ==> Lawfully(n, Flatten(logs + [log]), left)
  {
    hide LawfulRun, Run, Ingested;
    if Named(n, items, rounds, logs + [log]) {
      assert (logs + [log])[..|logs|] == logs;
      FlattenAppend(logs, [log]);
      assert Flatten([log]) == log + Flatten<Event>([]) == log;
      forall d | d in taken + left
        ensures d.id < Run(n, Flatten(logs)).nextId
      {
        assert d in before + rounds[|logs|].app;
      }
      assert forall d | d in taken :: d in taken + left;
      assert forall d | d in left :: d in taken + left;
      LawfulAppend(n, Flatten(logs), log);
    }
  }

  lemma LawfulAll(n: Net, log: seq<Event>, items: seq<DataIn>)
    ensures Lawfully(n, log, items) ==> LawfulRun(n, log)
  {
  }

  /** Whether each round has one clock, and the clocks of the rounds never go back. */
  ghost predicate OneClocked(rounds: seq<Round>) {
    && (forall i | 0 <= i < |rounds| :: OneClock(rounds[i]))
    && (forall i, k | 0 <= i <= k < |rounds| :: rounds[i].now <= rounds[k].now)
  }

  ghost predicate Punctual(rounds: seq<Round>, turns: nat, log: seq<Event>) {
    Timed(log) && Clock(log) <= if 0 < turns <= |rounds| then rounds[turns - 1].now else 0
  }

  lemma PunctualOn(rounds: seq<Round>, turns: nat, logs: seq<seq<Event>>, log: seq<Event>)
    requires turns < |rounds| && (OneClocked(rounds) ==> Punctual(rounds, turns, Flatten(logs)))
    requires OneClock(rounds[turns]) ==> AllAt(log, rounds[turns].now)
    ensures OneClocked(rounds) ==> Punctual(rounds, turns + 1, Flatten(logs + [log]))
  {
    hide OneClock, AllAt, Timed, Clock;
    if OneClocked(rounds) {
      FlattenAppend(logs, [log]);
      assert Flatten([log]) == log + Flatten<Event>([]) == log;
      TimedAppend(Flatten(logs), log, rounds[turns].now);
    }
  }

  lemma PunctualAll(rounds: seq<Round>, log: seq<Event>)
    ensures forall turns :: Punctual(rounds, turns, log) ==> Timed(log)
  {
  }

  ghost predicate SmallRounds(rounds: seq<Round>, largest: nat) {
    forall i | 0 <= i < |rounds| :: Small(rounds[i].app, largest)
  }

  lemma WithinMore(bytes: nat, items: seq<DataIn>, rounds: seq<Round>, i: nat)
    requires i < |rounds|
    ensures forall largest | Within(bytes, items, largest) && SmallRounds(rounds, largest) ::
              Within(bytes, items + rounds[i].app, largest)
  {
  }

  lemma WithinAll(bytes: nat, items: seq<DataIn>)
    ensures forall largest | Within(bytes, items, largest) :: bytes < MAX_BACKLOG_BYTES + largest
  {
  }

  /** How many of the rounds with these logs end with the backlog below its bound. */
  ghost function OpenRounds(n: Net, logs: seq<seq<Event>>): nat
    decreases |logs|
  {
    if logs == [] then 0
    else
      OpenRounds(n, logs[..|logs| - 1]) +
      if TotalSize(Run(n, Flatten(logs)).backlog) < MAX_BACKLOG_BYTES then 1 else 0
  }

  lemma OpenRound(n: Net, logs: seq<seq<Event>>, log: seq<Event>)
    ensures OpenRounds(n, logs + [log]) == OpenRounds(n, logs) +
            if TotalSize(Run(n, Flatten(logs + [log])).backlog) < MAX_BACKLOG_BYTES then 1 else 0
  {
    assert (logs + [log])[..|logs|] == logs;
  }

  lemma NothingYet(n: Net)
    ensures Run(n, Flatten([])) == n && Ingested(Flatten([])) == [] && Opened(Flatten([])) == [] && Opening([]) == []
    ensures OpenRounds(n, []) == 0
  {
  }

  lemma LogsSay(n: Net, logs: seq<seq<Event>>, log: seq<Event>, served: Served, more: Served)
    requires Ingested(Flatten(logs)) == served.app && Opened(Flatten(logs)) == Opening(served.cmds)
    requires Ingested(log) == more.app && Opened(log) == Opening(more.cmds)
    ensures var all := Flatten(logs + [log]);
            && Run(n, all) == Run(Run(n, Flatten(logs)), log)
            && Ingested(all) == served.app + more.app && Opened(all) == Opening(served.cmds + more.cmds)
  {
    hide Run, Ingested, Opened, Opening;
    FlattenAppend(logs, [log]);
    assert Flatten([log]) == log + Flatten<Event>([]) == log;
    RunAppend(n, Flatten(logs), log);
    SaysAppend(Flatten(logs), log);
    OpeningAppend(served.cmds, more.cmds);
  }

  lemma Continues<T>(taken: seq<T>, queue: seq<T>, n: nat)
    requires n <= |queue|
    ensures taken + queue[..n] + queue[n..] == taken + queue
  {
    assert queue[..n] + queue[n..] == queue;
  }

  // ---- Bounded waiting ----

  /** `queue` is what was taken and what is left, in order, but for what came behind it, and each of `turns`
      turns has taken `budget` of it unless all of it is taken. */
  ghost predicate Waits<T>(queue: seq<T>, taken: seq<T>, left: seq<T>, budget: nat, turns: nat) {
    queue <= taken + left && (|taken| >= budget * turns || |taken| >= |queue|)
  }

  lemma WaitsNothing<T>(queue: seq<T>, budget: nat)
    ensures Waits(queue, [], queue, budget, 0)
  {
    assert [] + queue == queue;
  }

  lemma WaitsOn<T>(queue: seq<T>, taken: seq<T>, left: seq<T>, arrived: seq<T>, more: seq<T>, rest: seq<T>,
                   budget: nat, turns: nat)
    requires Waits(queue, taken, left, budget, turns) && more + rest == left + arrived
    ensures Waits(queue, taken + more, rest, budget, turns)
    ensures |more| >= budget || rest == [] ==> Waits(queue, taken + more, rest, budget, turns + 1)
  {
    assert taken + more + rest == taken + (more + rest) == taken + left + arrived;
    assert budget * (turns + 1) == budget * turns + budget;
    assert rest == [] ==> taken + more + rest == taken + more;
  }

  /** What stands at position `k` has been taken, in its place, once k / budget + 1 turns are over. */
  lemma WaitOver<T>(queue: seq<T>, taken: seq<T>, left: seq<T>, budget: nat, turns: nat)
    requires Waits(queue, taken, left, budget, turns) && budget > 0
    ensures queue <= taken + left
    ensures forall k | 0 <= k < |queue| && k / budget + 1 <= turns :: k < |taken| && taken[k] == queue[k]
  {
    forall k | 0 <= k < |queue| && k / budget + 1 <= turns
      ensures k < |taken| && taken[k] == queue[k]
    {
      InTurns(k, budget, turns);
      assert (taken + left)[k] == queue[k];
    }
  }

  lemma InTurns(k: nat, budget: nat, turns: nat)
    requires budget > 0 && k / budget + 1 <= turns
    ensures k < budget * turns
  {
    assert budget * turns >= budget * (k / budget + 1);
  }

  // ---- The wait at the gate ----

  /** What the stack has written into a gate by the time of one check. */
  datatype Reading = Reading(now: Time, acked: nat, cap: nat, closed: bool)

  class FlowCredit {
    var sent: nat
    var acked: nat
    var cap: nat
    var closed: bool

    ghost function Value(): Credit
      reads this
    {
      Credit(sent, acked, cap, closed)
    }

    constructor ()
      ensures Value() == Credit(0, 0, MIN_FLOW_QUEUE_BYTES, false)
    {
      sent, acked, cap, closed := 0, 0, MIN_FLOW_QUEUE_BYTES, false;
    }

    method PublishTo(acked: nat, cap: nat)
      modifies this
      ensures Value() == Publish(old(Value()), acked, cap)
      ensures this.acked >= old(this.acked) && this.cap >= MIN_FLOW_QUEUE_BYTES
    {
      if acked > this.acked {
        this.acked := acked;
      }
      this.cap := if cap > MIN_FLOW_QUEUE_BYTES then cap else MIN_FLOW_QUEUE_BYTES;
    }

    /** Waits until the flow may add `len` octets, the stack writing `checks(k)` into the gate before the
        k-th check: it goes on at the first check that admits or is past the deadline, after at most
        10,000 sleeps, and then counts the octets once. No check that finds the flow closed, or all of it
        acknowledged, is followed by a sleep. */
    method Reserve(len: nat, checks: nat -> Reading) returns (sleeps: nat)
      requires forall k: nat :: checks(k + 1).now >= checks(k).now + 2
      modifies this
      ensures sleeps <= 10_000
      ensures Value() == Credit(old(sent) + len, checks(sleeps).acked, checks(sleeps).cap, checks(sleeps).closed)
      ensures || checks(sleeps).closed || old(sent) <= checks(sleeps).acked
              || old(sent) - checks(sleeps).acked + len <= checks(sleeps).cap
              || checks(sleeps).now >= checks(0).now + 20_000
      ensures forall k | 0 <= k < sleeps ::
                && !checks(k).closed && checks(k).acked < old(sent)
                && old(sent) - checks(k).acked + len > checks(k).cap && checks(k).now < checks(0).now + 20_000
    {
      var deadline := checks(0).now + CREDIT_WAIT_MAX;
      sleeps := 0;
      acked, cap, closed := checks(0).acked, checks(0).cap, checks(0).closed;
      while !closed && Outstanding(Credit(sent, acked, cap, closed)) != 0
            && Outstanding(Credit(sent, acked, cap, closed)) + len > cap && checks(sleeps).now < deadline
        invariant sent == old(sent) && Value() == GateAt(sent, checks(sleeps))
        invariant checks(sleeps).now >= checks(0).now + sleeps * CREDIT_WAIT_STEP
        invariant forall k | 0 <= k < sleeps :: !Admits(GateAt(sent, checks(k)), len) && checks(k).now < deadline
        invariant sleeps <= CREDIT_WAIT_MAX / CREDIT_WAIT_STEP
        decreases CREDIT_WAIT_MAX / CREDIT_WAIT_STEP - sleeps
      {
        sleeps := sleeps + 1;
        acked, cap, closed := checks(sleeps).acked, checks(sleeps).cap, checks(sleeps).closed;
      }
      sent := sent + len;
    }
  }

  function GateAt(sent: nat, r: Reading): Credit { Credit(sent, r.acked, r.cap, r.closed) }
}
