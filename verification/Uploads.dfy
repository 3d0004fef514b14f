/** Closes over octets that are still pending: when the program can ask for one, and what becomes of them. */
module Uploads {
  import opened Bytes
  import opened Net
  import opened Conservation
  import opened Closing
  import opened Admission

  // ---- Passes as the socket allows them ----

  /** What a pass over a real socket finds: room for what the send buffer has free, and never a connection that
      is still being opened once it was open. */
  predicate Honest(txBuf: nat, f: Flow, pass: Pass) {
    && pass.room + Unacked(Polled(f, pass).socket) == txBuf
    && (f.established ==> pass.phase != Listen && pass.phase != SynSent && pass.phase != SynReceived)
  }

  ghost predicate HonestMove(w: World, m: Move) {
    m.Loop? && m.e.Service? && m.e.id in w.net.tcp ==> Honest(w.net.txBuf, w.net.tcp[m.e.id], m.e.pass)
  }

  ghost predicate HonestRun(w: World, moves: seq<Move>)
    decreases |moves|
  {
    moves == [] ||
    (HonestRun(w, moves[..|moves| - 1]) && HonestMove(Moves(w, moves[..|moves| - 1]), moves[|moves| - 1]))
  }

  /** Whether the pass asks for a close over octets that are still pending. */
  predicate AsksOver(n: Net, f: Flow, pass: Pass) {
    var r := Serviced(n.txBuf, n.orphanLinger, f, pass);
    !f.socket.finAsked && r.Some? && r.value.socket.finAsked && r.value.pending != []
  }

  /** No write of `j` is larger than `largest`, and none is let through by a wait that ran out unless waits may. */
  ghost predicate Mannered(moves: seq<Move>, j: nat, largest: nat, mayRunOut: bool) {
    forall m | m in moves && m.Write? && m.id == j :: |m.data| <= largest && (m.timedOut ==> mayRunOut)
  }

  // ---- Never, with room for all that is let in ----

  lemma {:induction false} MovesTxBuf(w: World, moves: seq<Move>)
    ensures Moves(w, moves).net.txBuf == w.net.txBuf && Moves(w, moves).net.maxPending == w.net.maxPending
    decreases |moves|
  {
    hide Step;
    if moves != [] {
      var init, last := moves[..|moves| - 1], moves[|moves| - 1];
      MovesTxBuf(w, init);
      var v := Moves(w, init);
      match last
      case Write(id, data, _) => StepTxBuf(v.net, Admit(id, |data|));
      case Post(d) =>
      case Recv =>
        if v.chan != [] {
          StepTxBuf(v.net, Ingest(v.chan[0]));
        }
      case Loop(e) => StepTxBuf(v.net, e);
    }
  }

  /** With a buffer of 48 KB or more, no write larger than it and no wait that runs out, the send buffer has
      room for all that is pending, at every pass of every run. */
  lemma PendingHasRoom(n: Net, moves: seq<Move>, j: nat, pass: Pass)
    requires Fresh(n) && PermittedRun(World(n, [], []), moves) && Mannered(moves, j, n.txBuf, false)
    requires n.txBuf >= MIN_FLOW_QUEUE_BYTES
    requires var w := Moves(World(n, [], []), moves);
             j in w.net.tcp && !w.net.tcp[j].socket.reset && Honest(n.txBuf, w.net.tcp[j], pass)
    ensures |Moves(World(n, [], []), moves).net.tcp[j].pending| <= pass.room
  {
    hide Moves, PermittedRun, OctetsIn, Sound;
    MovesTxBuf(World(n, [], []), moves);
    OutstandingBounded(n, moves, j, n.txBuf);
    OutstandingIsHeld(n, moves, j);
    RunCounts(n, moves, j);
  }

  lemma NeverOver(n: Net, moves: seq<Move>, j: nat, pass: Pass)
    requires Fresh(n) && PermittedRun(World(n, [], []), moves) && Mannered(moves, j, n.txBuf, false)
    requires n.txBuf >= MIN_FLOW_QUEUE_BYTES
    requires var w := Moves(World(n, [], []), moves); j in w.net.tcp && Honest(n.txBuf, w.net.tcp[j], pass)
    ensures var w := Moves(World(n, [], []), moves); !AsksOver(w.net, w.net.tcp[j], pass)
  {
    hide Moves, PermittedRun, Mannered, Serviced, Uplink, Flaps, Unacked;
    var w := Moves(World(n, [], []), moves);
    var f := w.net.tcp[j];
    if !f.socket.finAsked {
      FinOverPending(w.net.txBuf, w.net.orphanLinger, f, pass);
      if !f.socket.reset {
        PendingHasRoom(n, moves, j, pass);
      }
    }
  }

  // ---- Otherwise, sometimes ----

  /** A flow in its first instant: connected, with `pending` handed in and nothing yet taken by its socket. */
  ghost predicate Ready(w: World, n: Net, pending: seq<Byte>) {
    && w.chan == [] && w.net.backlog == [] && n.nextId in w.net.tcp && w.net.nextId > n.nextId
    && w.net.txBuf == n.txBuf && w.net.maxPending == n.maxPending
    && var f := w.net.tcp[n.nextId];
       && f.pending == pending && f.established && !f.aborted && f.lastDrain == 0
       && f.socket == Socket(Established, [], 0, false, false)
       && f.credit.sent == |pending| && f.credit.acked == 0 && f.credit.cap >= MIN_FLOW_QUEUE_BYTES
  }

  function FirstPass(n: Net): Pass { Pass(0, Established, 0, n.txBuf, 0, false, false, false) }

  function PeerCloses(n: Net): Pass { FirstPass(n).(phase := CloseWait) }

  lemma Connects(n: Net)
    requires Fresh(n)
    ensures var w := World(Step(n, Open(false, 0)), [], [Open(false, 0)]);
            && Honest(n.txBuf, w.net.tcp[n.nextId], FirstPass(n))
            && Ready(MoveStep(w, Loop(Service(n.nextId, FirstPass(n)))), n, [])
  {
  }

  /** One write, let in by the gate or by a wait that ran out, and its way to the flow. */
  lemma WriteGetsIn(w: World, n: Net, pending: seq<Byte>, data: seq<Byte>, timedOut: bool)
    requires Ready(w, n, pending) && data != [] && |pending| + |data| <= n.maxPending
    requires timedOut || pending == [] || |pending| + |data| <= MIN_FLOW_QUEUE_BYTES
    ensures var m := Write(n.nextId, data, timedOut);
            && Permitted(w, m) && Permitted(MoveStep(w, m), Recv)
            && Ready(MoveStep(MoveStep(w, m), Recv), n, pending + data)
  {
    var m := Write(n.nextId, data, timedOut);
    var v := MoveStep(w, m);
    assert v.chan == [Tcp(n.nextId, data)] && v.chan[1..] == [];
  }

  lemma PeerCloseCuts(w: World, n: Net, pending: seq<Byte>)
    requires Ready(w, n, pending) && |pending| > n.txBuf
    ensures var f := w.net.tcp[n.nextId];
            && Honest(n.txBuf, f, PeerCloses(n)) && AsksOver(w.net, f, PeerCloses(n))
  {
    hide Serviced, Settled;
    FinOverPending(w.net.txBuf, w.net.orphanLinger, w.net.tcp[n.nextId], PeerCloses(n));
  }

  /** A run of the program, with its passes as the sockets allow them and the writes of `j` as told. */
  ghost predicate RunsWith(n: Net, moves: seq<Move>, j: nat, largest: nat, mayRunOut: bool) {
    && PermittedRun(World(n, [], []), moves) && HonestRun(World(n, [], []), moves)
    && Mannered(moves, j, largest, mayRunOut)
  }

  lemma RunsOn(n: Net, moves: seq<Move>, m: Move, j: nat, largest: nat, mayRunOut: bool)
    requires RunsWith(n, moves, j, largest, mayRunOut)
    requires var w := Moves(World(n, [], []), moves); Permitted(w, m) && HonestMove(w, m)
    requires m.Write? && m.id == j ==> |m.data| <= largest && (m.timedOut ==> mayRunOut)
    ensures RunsWith(n, moves + [m], j, largest, mayRunOut)
    ensures Moves(World(n, [], []), moves + [m]) == MoveStep(Moves(World(n, [], []), moves), m)
  {
    hide MoveStep, Permitted, HonestMove;
    assert (moves + [m])[..|moves|] == moves;
  }

  lemma StartsReady(n: Net, largest: nat, mayRunOut: bool) returns (moves: seq<Move>)
    requires Fresh(n)
    ensures moves == Start(n)
    ensures RunsWith(n, moves, n.nextId, largest, mayRunOut) && Ready(Moves(World(n, [], []), moves), n, [])
  {
    var open, service := Loop(Open(false, 0)), Loop(Service(n.nextId, FirstPass(n)));
    assert RunsWith(n, [], n.nextId, largest, mayRunOut);
    RunsOn(n, [], open, n.nextId, largest, mayRunOut);
    assert [] + [open] == [open];
    assert Moves(World(n, [], []), [open]) == World(Step(n, Open(false, 0)), [], [Open(false, 0)]);
    Connects(n);
    RunsOn(n, [open], service, n.nextId, largest, mayRunOut);
    moves := [open] + [service];
  }

  /** The flow is opened and connects. */
  function Start(n: Net): seq<Move> { [Loop(Open(false, 0)), Loop(Service(n.nextId, FirstPass(n)))] }

  lemma WriteOn(n: Net, moves: seq<Move>, pending: seq<Byte>, data: seq<Byte>, largest: nat, mayRunOut: bool)
    returns (longer: seq<Move>)
    requires RunsWith(n, moves, n.nextId, largest, mayRunOut) && Ready(Moves(World(n, [], []), moves), n, pending)
    requires data != [] && |data| <= largest && |pending| + |data| <= n.maxPending
    requires mayRunOut || pending == [] || |pending| + |data| <= MIN_FLOW_QUEUE_BYTES
    ensures longer == moves + [Write(n.nextId, data, mayRunOut)] + [Recv]
    ensures RunsWith(n, longer, n.nextId, largest, mayRunOut)
    ensures Ready(Moves(World(n, [], []), longer), n, pending + data)
  {
    hide Moves, RunsWith, Ready, MoveStep, Permitted;
    var m := Write(n.nextId, data, mayRunOut);
    WriteGetsIn(Moves(World(n, [], []), moves), n, pending, data, mayRunOut);
    RunsOn(n, moves, m, n.nextId, largest, mayRunOut);
    RunsOn(n, moves + [m], Recv, n.nextId, largest, mayRunOut);
    longer := moves + [m] + [Recv];
  }

  /** `k` octets pending, one write each. */
  lemma {:induction false} Fill(n: Net, k: nat, largest: nat, mayRunOut: bool)
    returns (moves: seq<Move>, pending: seq<Byte>)
    requires Fresh(n) && largest >= 1 && k <= n.maxPending && (mayRunOut || k <= MIN_FLOW_QUEUE_BYTES)
    ensures RunsWith(n, moves, n.nextId, largest, mayRunOut) && |pending| == k
    ensures Ready(Moves(World(n, [], []), moves), n, pending)
    decreases k
  {
    hide Moves, RunsWith, Ready;
    if k == 0 {
      moves := StartsReady(n, largest, mayRunOut);
      pending := [];
    } else {
      var fewer, before := Fill(n, k - 1, largest, mayRunOut);
      moves := WriteOn(n, fewer, before, [0], largest, mayRunOut);
      pending := before + [0];
    }
  }

  /** A run that has more pending than the send buffer can hold, where one can. */
  lemma Overfull(n: Net, largest: nat, mayRunOut: bool) returns (moves: seq<Move>, pending: seq<Byte>)
    requires Fresh(n) && largest >= 1 && n.maxPending > n.txBuf
    requires mayRunOut || n.txBuf < MIN_FLOW_QUEUE_BYTES || largest > n.txBuf
    ensures RunsWith(n, moves, n.nextId, largest, mayRunOut) && |pending| > n.txBuf
    ensures Ready(Moves(World(n, [], []), moves), n, pending)
  {
    hide Moves, RunsWith, Ready;
    if mayRunOut || n.txBuf < MIN_FLOW_QUEUE_BYTES {
      moves, pending := Fill(n, n.txBuf + 1, largest, mayRunOut);
    } else {
      var start := StartsReady(n, largest, mayRunOut);
      var data: seq<Byte> := seq(n.txBuf + 1, _ => 0);
      moves := WriteOn(n, start, [], data, largest, mayRunOut);
      pending := [] + data;
    }
  }

  /** Whether no pass of any such run asks for a close over octets that are still pending. */
  ghost predicate NeverAsksOver(n: Net, largest: nat, mayRunOut: bool) {
    forall moves: seq<Move>, j: nat, pass: Pass
      | Passes(n, moves, j, pass) && RunsWith(n, moves, j, largest, mayRunOut) ::
      !AsksOver(Moves(World(n, [], []), moves).net, Moves(World(n, [], []), moves).net.tcp[j], pass)
  }

  ghost predicate Passes(n: Net, moves: seq<Move>, j: nat, pass: Pass) {
    var w := Moves(World(n, [], []), moves); j in w.net.tcp && Honest(n.txBuf, w.net.tcp[j], pass)
  }

  /** A close is asked for only once nothing is pending, over every run of the program, exactly when the send
      buffer is no smaller than 48 KB nor than the largest write, and no wait at the gate runs out. The bound on
      what is pending is twice the buffer or more, so above it. */
  lemma NeverAsksOverIff(n: Net, largest: nat, mayRunOut: bool)
    requires Fresh(n) && largest >= 1 && n.maxPending > n.txBuf
    ensures NeverAsksOver(n, largest, mayRunOut) <==>
            !mayRunOut && 49_152 <= n.txBuf && largest <= n.txBuf
  {
    hide Moves, AsksOver, Honest, Ready;
    if !mayRunOut && MIN_FLOW_QUEUE_BYTES <= n.txBuf && largest <= n.txBuf {
      forall moves: seq<Move>, j: nat, pass: Pass
        | Passes(n, moves, j, pass) && RunsWith(n, moves, j, largest, mayRunOut)
        ensures !AsksOver(Moves(World(n, [], []), moves).net, Moves(World(n, [], []), moves).net.tcp[j], pass)
      {
        NeverOver(n, moves, j, pass);
      }
    } else {
      var moves, pending := Overfull(n, largest, mayRunOut);
      ReadyFlow(Moves(World(n, [], []), moves), n, pending);
      PeerCloseCuts(Moves(World(n, [], []), moves), n, pending);
      assert Passes(n, moves, n.nextId, PeerCloses(n));
    }
  }

  lemma ReadyFlow(w: World, n: Net, pending: seq<Byte>)
    requires Ready(w, n, pending)
    ensures n.nextId in w.net.tcp
  {
  }

  // ---- An upload that is cut ----

  const SMALL_BUFFER := 16 * 1024

  /** Two writes that the gate lets in, and the peer's close before a third pass. */
  function CutRun(n: Net, a: seq<Byte>, b: seq<Byte>): seq<Move> {
    Start(n) + [Write(n.nextId, a, false)] + [Recv] + [Write(n.nextId, b, false)] + [Recv]
    + [Loop(Service(n.nextId, PeerCloses(n)))]
  }

  /** The socket takes what it has room for, and is asked to close over the rest. */
  lemma PeerCloseTakes(w: World, n: Net, pending: seq<Byte>)
    requires Ready(w, n, pending) && |pending| > n.txBuf > 0
    ensures var r := Serviced(w.net.txBuf, w.net.orphanLinger, w.net.tcp[n.nextId], PeerCloses(n));
            && r.Some? && r.value.socket.finAsked && r.value.pending == pending[n.txBuf..]
            && r.value.socket.accepted == pending[..n.txBuf]
  {
    var f := w.net.tcp[n.nextId];
    var p := Polled(f, PeerCloses(n));
    assert p == f.(socket := f.socket.(phase := CloseWait));
    var u := Uplink(p.(established := true), PeerCloses(n));
    assert u.pending == pending[n.txBuf..] && u.socket.accepted == [] + pending[..n.txBuf];
    assert !Flaps(u, 0);
    assert [] + pending[..n.txBuf] == pending[..n.txBuf];
  }

  /** With the smallest buffer the program takes, an upload of two writes that fill it: the peer closes its side
      after both were let in, the close is asked for with the second still pending, and no run that follows
      ever puts it into the socket. */
  lemma UploadCutByPeerClose(n: Net, a: seq<Byte>, b: seq<Byte>, later: seq<Event>)
    requires Fresh(n) && n.txBuf == SMALL_BUFFER && n.maxPending == 64 * 1024 && |a| == |b| == SMALL_BUFFER
    requires LawfulRun(Moves(World(n, [], []), CutRun(n, a, b)).net, later)
    ensures RunsWith(n, CutRun(n, a, b), n.nextId, SMALL_BUFFER, false)
    ensures var m := Moves(World(n, [], []), CutRun(n, a, b)).net;
            && n.nextId in m.tcp && m.tcp[n.nextId].socket.finAsked && m.tcp[n.nextId].pending == b
            && (n.nextId in Run(m, later).tcp ==> Run(m, later).tcp[n.nextId].socket.accepted == a)
  {
    hide Moves, RunsWith, Ready, Serviced, LawfulRun, Run, Honest;
    var start := StartsReady(n, SMALL_BUFFER, false);
    var one := WriteOn(n, start, [], a, SMALL_BUFFER, false);
    assert [] + a == a;
    var two := WriteOn(n, one, a, b, SMALL_BUFFER, false);
    var w := Moves(World(n, [], []), two);
    ReadyFlow(w, n, a + b);
    ReadyConfig(w, n, a + b);
    PeerCloseCuts(w, n, a + b);
    PeerCloseTakes(w, n, a + b);
    assert (a + b)[..SMALL_BUFFER] == a && (a + b)[SMALL_BUFFER..] == b;
    RunsOn(n, two, Loop(Service(n.nextId, PeerCloses(n))), n.nextId, SMALL_BUFFER, false);
    Given(n, CutRun(n, a, b), SMALL_BUFFER, false);
    FrozenForGood(Moves(World(n, [], []), CutRun(n, a, b)).net, later, n.nextId);
  }

  lemma ReadyConfig(w: World, n: Net, pending: seq<Byte>)
    requires Ready(w, n, pending)
    ensures w.net.txBuf == n.txBuf
  {
  }

  lemma Given(n: Net, moves: seq<Move>, largest: nat, mayRunOut: bool)
    requires Fresh(n) && RunsWith(n, moves, n.nextId, largest, mayRunOut)
    ensures Issued(Moves(World(n, [], []), moves).net)
  {
    hide Moves;
    RunCounts(n, moves, n.nextId);
    StreamConserved(n, Moves(World(n, [], []), moves).log, n.nextId);
  }
}
