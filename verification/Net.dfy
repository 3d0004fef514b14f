/** The userspace network stack as a state machine: the flows, the backlog in front of them and the
    steps of the loop that serves them. Times are milliseconds. */
module Net {
  import opened Bytes

  const MAX_BACKLOG_BYTES := 512 * 1024
  const TCP_WEDGE_TIMEOUT := 30_000
  const TCP_DRAIN_STALL_TIMEOUT := 8_000
  const TCP_DRAIN_STALL_WARN := 3_000
  const STALL_FLAP_WINDOW := 60_000
  const STALL_FLAP_LIMIT := 2
  const MIN_FLOW_QUEUE_BYTES := 48 * 1024

  type Time = nat

  datatype Endpoint = Endpoint(address: seq<Byte>, port: nat)

  datatype Datagram = Datagram(dst: Endpoint, data: seq<Byte>)

  /** What the app side hands to the stack. */
  datatype DataIn =
    | Tcp(id: nat, data: seq<Byte>)
    | TcpClose(id: nat)
    | Udp(id: nat, dst: Endpoint, data: seq<Byte>)
    | UdpClose(id: nat)

  function Size(d: DataIn): nat {
    match d
    case Tcp(_, data) => |data|
    case Udp(_, _, data) => |data|
    case _ => 0
  }

  function TotalSize(q: seq<DataIn>): nat {
    if q == [] then 0 else Size(q[0]) + TotalSize(q[1..])
  }

  function Ids(q: seq<DataIn>): set<nat> { set d | d in q :: d.id }

  /** The states of a TCP connection. */
  datatype Phase = Closed | Listen | SynSent | SynReceived | Established | FinWait1 | FinWait2
    | CloseWait | Closing | LastAck | TimeWait

  /** The stack's TCP socket: the octets it has taken, how many of them the peer has acknowledged, and
      whether its own side was asked to close or was reset. */
  datatype Socket = Socket(phase: Phase, accepted: seq<Byte>, acked: nat, finAsked: bool, reset: bool)

  function Unacked(s: Socket): nat { if s.acked <= |s.accepted| then |s.accepted| - s.acked else 0 }

  /** The phase a close leads to; the same one where there is nothing left to close. */
  function CloseTo(p: Phase): Phase {
    if p == Listen || p == SynSent then Closed
    else if p == SynReceived || p == Established then FinWait1
    else if p == CloseWait then LastAck
    else p
  }

  function AskClose(s: Socket): Socket {
    s.(phase := CloseTo(s.phase), finAsked := s.finAsked || CloseTo(s.phase) != s.phase)
  }

  function Abort(s: Socket): Socket { s.(phase := Closed, reset := true) }

  /** The admission gate of one flow. */
  datatype Credit = Credit(sent: nat, acked: nat, cap: nat, closed: bool)

  function Outstanding(c: Credit): nat { if c.acked <= c.sent then c.sent - c.acked else 0 }

  function Publish(c: Credit, acked: nat, cap: nat): Credit {
    c.(acked := if acked > c.acked then acked else c.acked,
       cap := if cap > MIN_FLOW_QUEUE_BYTES then cap else MIN_FLOW_QUEUE_BYTES)
  }

  datatype Flow = Flow(
    pending: seq<Byte>, established: bool, halfClosed: bool, connectDeadline: Time,
    orphanedAt: Option<Time>, aborted: bool, carrier: bool, lastProgress: Time,
    queueHigh: nat, ackedHigh: nat, lastDrain: Time, drainWarned: bool,
    stallCount: nat, stallMark: Time, credit: Credit, socket: Socket)

  /** The stack with the backlog of what its flows could not take yet. */
  datatype Net = Net(
    maxPending: nat, txBuf: nat, connectFor: Time, orphanLinger: Time,
    nextId: nat, tcp: map<nat, Flow>, udp: map<nat, seq<Datagram>>, backlog: seq<DataIn>)

  /** What one service pass finds of a flow: the clock, the socket after the poll, how much it has
      room for, and what the rate estimate and the app side say. */
  datatype Pass = Pass(
    now: Time, phase: Phase, newlyAcked: nat, room: nat, wanted: nat,
    abandoned: bool, appGone: bool, canRecv: bool)

  datatype Event =
    | Open(carrier: bool, now: Time)
    | OpenUdp
    | Admit(id: nat, len: nat)
    | Ingest(d: DataIn)
    | DrainBacklog
    | Service(id: nat, pass: Pass)
    | Reap(now: Time)

  function NewFlow(carrier: bool, now: Time, connectFor: Time): Flow {
    Flow([], false, false, now + connectFor, None, false, carrier, now, 0, 0, now, false, 0, now,
         Credit(0, 0, MIN_FLOW_QUEUE_BYTES, false), Socket(SynSent, [], 0, false, false))
  }

  // ---- App data ----

  /** What a flow makes of one message, and what of it must wait. */
  function Handle(n: Net, d: DataIn): (r: (Net, Option<DataIn>))
    ensures r.0.backlog == n.backlog
  {
    match d
    case Tcp(id, data) =>
      if id !in n.tcp then (n, None)
      else
        var f := n.tcp[id];
        if |f.pending| >= n.maxPending then (n, Some(d))
        else
          var space := n.maxPending - |f.pending|;
          if |data| <= space then (n.(tcp := n.tcp[id := f.(pending := f.pending + data)]), None)
          else (n.(tcp := n.tcp[id := f.(pending := f.pending + data[..space])]), Some(Tcp(id, data[space..])))
    case TcpClose(id) =>
      if id !in n.tcp then (n, None)
      else (n.(tcp := n.tcp[id := n.tcp[id].(halfClosed := true)]), None)
    case Udp(id, dst, data) =>
      if id !in n.udp then (n, None)
      else (n.(udp := n.udp[id := n.udp[id] + [Datagram(dst, data)]]), None)
    case UdpClose(id) => (n.(udp := n.udp - {id}), None)
  }

  function Waiting(back: Option<DataIn>): seq<DataIn> {
    if back.Some? then [back.value] else []
  }

  /** One message: behind its own flow's backlog when there is one, else straight to its flow. */
  function IngestStep(n: Net, d: DataIn): Net {
    if d.id in Ids(n.backlog) then n.(backlog := n.backlog + [d])
    else
      var (m, back) := Handle(n, d);
      m.(backlog := m.backlog + Waiting(back))
  }

  /** One pass over `queue`, with `n.backlog` what was kept of the entries before it. */
  function DrainFrom(n: Net, queue: seq<DataIn>): Net
    decreases |queue|
  {
    if queue == [] then n else DrainFrom(IngestStep(n, queue[0]), queue[1..])
  }

  function DrainStep(n: Net): Net { DrainFrom(n.(backlog := []), n.backlog) }

  // ---- Service of one flow ----

  function Elapsed(now: Time, since: Time): Time { if since <= now then now - since else 0 }

  function Clamp(x: nat, lo: nat, hi: nat): nat
    requires lo <= hi
  {
    if x < lo then lo else if x > hi then hi else x
  }

  function Ceiling(txBuf: nat): (r: nat)
    ensures r >= MIN_FLOW_QUEUE_BYTES && r >= txBuf
  {
    if txBuf > MIN_FLOW_QUEUE_BYTES then txBuf else MIN_FLOW_QUEUE_BYTES
  }

  /** The socket after the poll that comes before the pass. */
  function Polled(f: Flow, pass: Pass): Flow {
    var s := f.socket;
    var acked := if s.acked + pass.newlyAcked < |s.accepted| then s.acked + pass.newlyAcked else |s.accepted|;
    f.(socket := s.(phase := if s.reset then Closed else pass.phase,
                    acked := if acked > s.acked then acked else s.acked))
  }

  predicate CanSend(s: Socket) {
    !s.finAsked && !s.reset && (s.phase == Established || s.phase == CloseWait)
  }

  /** Pending octets into the socket, as many as it has room for. */
  function Uplink(f: Flow, pass: Pass): Flow {
    if f.pending == [] then f.(lastProgress := pass.now)
    else if !CanSend(f.socket) || pass.room == 0 then f
    else
      var sent := if pass.room < |f.pending| then pass.room else |f.pending|;
      f.(lastProgress := pass.now, pending := f.pending[sent..],
         socket := f.socket.(accepted := f.socket.accepted + f.pending[..sent]))
  }

  predicate Draining(f: Flow) { Unacked(f.socket) == 0 || f.socket.acked > f.ackedHigh }

  predicate NewStall(f: Flow, now: Time) {
    !Draining(f) && !f.drainWarned && Elapsed(now, f.lastDrain) >= TCP_DRAIN_STALL_WARN
  }

  function StallsBefore(f: Flow, now: Time): nat {
    if Elapsed(now, f.stallMark) >= STALL_FLAP_WINDOW then 0 else f.stallCount
  }

  /** Whether this pass reports one stall too many. */
  predicate Flaps(f: Flow, now: Time) {
    NewStall(f, now) && StallsBefore(f, now) + 1 >= STALL_FLAP_LIMIT && !f.carrier
  }

  function DrainCheck(f: Flow, now: Time): Flow {
    var g :=
      if Draining(f) then f.(lastDrain := now, ackedHigh := f.socket.acked, drainWarned := false)
      else if NewStall(f, now) then
        f.(drainWarned := true, stallMark := now, stallCount := StallsBefore(f, now) + 1)
      else f;
    g.(queueHigh := Unacked(f.socket))
  }

  function Budget(txBuf: nat, wanted: nat): nat { Clamp(wanted, MIN_FLOW_QUEUE_BYTES, Ceiling(txBuf)) }

  function ResetFlow(f: Flow): Flow {
    f.(pending := [], credit := f.credit.(closed := true), socket := Abort(f.socket))
  }

  /** The flow after its uplink, its drain check and the publication of its credit. */
  function Measured(txBuf: nat, f: Flow, pass: Pass): Flow {
    var g := DrainCheck(Uplink(f, pass), pass.now);
    g.(credit := Publish(g.credit, g.socket.acked, Budget(txBuf, pass.wanted)))
  }

  /** After the reset of a flow that stalls too often. */
  function Flapped(txBuf: nat, f: Flow, pass: Pass): Flow {
    var g := Measured(txBuf, f, pass);
    if Flaps(Uplink(f, pass), pass.now) then ResetFlow(g).(stallCount := 0, drainWarned := false) else g
  }

  function HalfClose(f: Flow): Flow {
    if f.halfClosed && f.pending == [] then f.(socket := AskClose(f.socket)) else f
  }

  /** After the close a half-closed flow asks for once nothing is pending. */
  function Settled(txBuf: nat, f: Flow, pass: Pass): Flow { HalfClose(Flapped(txBuf, f, pass)) }

  /** The rest of the pass: an app side that is gone, a peer that has closed, a connection at its end.
      Nothing when the flow is dropped. */
  function Ended(orphanLinger: Time, f: Flow, pass: Pass): Option<Flow> {
    var since := if f.orphanedAt.Some? then f.orphanedAt.value else pass.now;
    if pass.appGone && (pass.canRecv || Elapsed(pass.now, since) >= orphanLinger) then
      Some(f.(orphanedAt := Some(since), aborted := true,
              socket := if f.socket.phase == Closed then f.socket else Abort(f.socket)))
    else
      var g := if pass.appGone then f.(orphanedAt := Some(since), socket := AskClose(f.socket)) else f;
      if g.socket.phase == Closed || g.socket.phase == TimeWait then None
      else if g.socket.phase == CloseWait then Some(g.(socket := AskClose(g.socket)))
      else Some(g)
  }

  /** A flow after one pass; nothing when the pass drops it. */
  function Serviced(txBuf: nat, orphanLinger: Time, f: Flow, pass: Pass): Option<Flow> {
    var p := Polled(f, pass);
    if p.aborted then None
    else
      var connected := p.socket.phase == Established || p.socket.phase == CloseWait;
      var g := if connected then p.(established := true) else p;
      if g.established then Ended(orphanLinger, Settled(txBuf, g, pass), pass)
      else if g.socket.phase == Closed || g.socket.phase == TimeWait then None
      else if pass.abandoned || pass.now >= g.connectDeadline then None
      else Some(g)
  }

  function ServiceStep(n: Net, id: nat, pass: Pass): Net {
    if id !in n.tcp then n
    else
      match Serviced(n.txBuf, n.orphanLinger, n.tcp[id], pass)
      case None => n.(tcp := n.tcp - {id})
      case Some(f) => n.(tcp := n.tcp[id := f])
  }

  // ---- The reaper ----

  /** Octets held and none acknowledged for too long. */
  predicate Stalled(f: Flow, now: Time) {
    !f.carrier && f.queueHigh > 0 && Elapsed(now, f.lastDrain) >= TCP_DRAIN_STALL_TIMEOUT
  }

  /** Nothing taken for too long. */
  predicate Wedged(f: Flow, now: Time) {
    !f.carrier && Elapsed(now, f.lastProgress) >= TCP_WEDGE_TIMEOUT
  }

  predicate Dead(n: Net, id: nat, now: Time) {
    || (id in n.tcp && Stalled(n.tcp[id], now))
    || (id in Ids(n.backlog) && (id !in n.tcp || Wedged(n.tcp[id], now)))
  }

  /** The entries of `q` that are not of the flows `dead`. */
  function Without(q: seq<DataIn>, dead: set<nat>): seq<DataIn> {
    if q == [] then []
    else (if q[0].id in dead then [] else [q[0]]) + Without(q[1..], dead)
  }

  function DeadIds(n: Net, now: Time): set<nat> {
    set id | id in n.tcp.Keys + Ids(n.backlog) && Dead(n, id, now)
  }

  function ReapStep(n: Net, now: Time): Net {
    var dead := DeadIds(n, now);
    n.(tcp := map id | id in n.tcp :: if id in dead then ResetFlow(n.tcp[id]) else n.tcp[id],
       backlog := Without(n.backlog, dead))
  }

  // ---- Runs ----

  function AdmitStep(n: Net, id: nat, len: nat): Net {
    if id !in n.tcp then n
    else
      var f := n.tcp[id];
      n.(tcp := n.tcp[id := f.(credit := f.credit.(sent := f.credit.sent + len))])
  }

  function Step(n: Net, e: Event): Net {
    match e
    case Open(carrier, now) =>
      n.(tcp := n.tcp[n.nextId := NewFlow(carrier, now, n.connectFor)], nextId := n.nextId + 1)
    case OpenUdp => n.(udp := n.udp[n.nextId := []], nextId := n.nextId + 1)
    case Admit(id, len) => AdmitStep(n, id, len)
    case Ingest(d) => IngestStep(n, d)
    case DrainBacklog => DrainStep(n)
    case Service(id, pass) => ServiceStep(n, id, pass)
    case Reap(now) => ReapStep(n, now)
  }

  function Run(n: Net, events: seq<Event>): Net
    decreases |events|
  {
    if events == [] then n else Step(Run(n, events[..|events| - 1]), events[|events| - 1])
  }

  /** A stack before its first flow. */
  predicate Fresh(n: Net) {
    n.tcp == map[] && n.udp == map[] && n.backlog == [] && n.maxPending > 0
  }
}
