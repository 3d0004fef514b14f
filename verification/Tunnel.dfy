/** IP packets over one HTTP/2 stream: how they are batched out and how they come back in. */
module Tunnel {
  import opened Bytes
  import opened Varint
  import opened Capsules

  type Packet = seq<Byte>

  const CONNECT_IP_CONTEXT_ID := 0
  const H2_SEND_BATCH_BYTES := 32 * 1024

  // ---- Datagrams ----

  predicate LooksLikeIp(data: seq<Byte>) {
    |data| >= 20 && (data[0] / 16 == 4 || data[0] / 16 == 6)
  }

  /** The packet in a datagram's payload, with or without a context id in front. */
  function Strip(payload: seq<Byte>): Option<Packet> {
    var ctx := GetVarint(payload);
    if ctx.Some? && ctx.value.0 == CONNECT_IP_CONTEXT_ID && LooksLikeIp(payload[ctx.value.1..])
    then Some(payload[ctx.value.1..])
    else if LooksLikeIp(payload) then Some(payload)
    else None
  }

  /** A packet that goes bare comes back whole exactly unless it starts with the octets 0x40 0x00, which
      read as a context id, and what follows them looks like a packet itself. */
  lemma BareStripsIff(packet: Packet)
    requires LooksLikeIp(packet)
    ensures Strip(packet) == Some(packet) <==>
            !(packet[0] == 0x40 && packet[1] == 0 && LooksLikeIp(packet[2..]))
  {
    var pair := packet[..2];
    assert pair[..1] == [packet[0]] && [packet[0]][..0] == [];
    assert BigEndian([packet[0]]) == packet[0];
    assert BigEndian(pair) == (packet[0] as int) * 256 + packet[1];
    assert packet[2..] != packet;
  }

  /** IPv4 with a header of at least 20 octets, and IPv6, never start so. */
  predicate WellHeaded(packet: Packet) {
    |packet| >= 20 && ((packet[0] / 16 == 4 && packet[0] % 16 >= 5) || packet[0] / 16 == 6)
  }

  lemma WellHeadedStrips(packet: Packet)
    requires WellHeaded(packet)
    ensures Strip(packet) == Some(packet)
  {
    BareStripsIff(packet);
  }

  /** What such a packet comes to: its first two octets are lost, and the rest handed on for the packet. */
  lemma ContextLikeLost(packet: Packet)
    requires LooksLikeIp(packet)
    ensures var bare := [0x40, 0] + packet;
            LooksLikeIp(bare) && Strip(bare) == Some(packet) && packet != bare
  {
    var bare: seq<Byte> := [0x40, 0] + packet;
    assert bare[..2] == [0x40, 0] && bare[2..] == packet;
    var pair: seq<Byte> := [0x40, 0];
    assert pair[..1] == [0x40] && [0x40][..0] == [];
    assert BigEndian([0x40]) == 0x40 && BigEndian(pair) == 0x4000;
  }

  lemma WithContextStrips(packet: Packet)
    requires LooksLikeIp(packet)
    ensures Strip([0] + packet) == Some(packet)
  {
    var payload := [0] + packet;
    assert payload[..1] == [0] && [0][..0] == [] && BigEndian([0]) == 0;
    assert payload[1..] == packet;
  }

  /** A datagram of HTTP/3: the quarter of its stream's id, the context id, the packet. */
  function EncodeIpDatagram(stream: nat, packet: Packet): seq<Byte>
    requires stream / 4 < MAX_VARINT
  {
    PutVarint(stream / 4) + PutVarint(CONNECT_IP_CONTEXT_ID) + packet
  }

  function DecodeIpDatagram(datagram: seq<Byte>, expected: nat): Result<Option<Packet>, Capsules.Error> {
    var quarter := GetVarint(datagram);
    if quarter.None? then Err(TooShort)
    else if quarter.value.0 != expected / 4 then Ok(None)
    else
      var rest := datagram[quarter.value.1..];
      var ctx := GetVarint(rest);
      if ctx.None? then Err(TooShort)
      else if ctx.value.0 != CONNECT_IP_CONTEXT_ID then Ok(None)
      else Ok(Some(rest[ctx.value.1..]))
  }

  /** A datagram gives its packet on its own stream and nothing on any other. */
  lemma IpDatagramReadsBack(stream: nat, expected: nat, packet: Packet)
    requires stream / 4 < MAX_VARINT
    ensures DecodeIpDatagram(EncodeIpDatagram(stream, packet), expected) ==
            Ok(if stream / 4 == expected / 4 then Some(packet) else None)
  {
    hide GetVarint, PutVarint;
    var q, c := PutVarint(stream / 4), PutVarint(CONNECT_IP_CONTEXT_ID);
    var d := EncodeIpDatagram(stream, packet);
    assert d == q + (c + packet);
    RoundTrip(stream / 4, c + packet);
    assert d[|q|..] == c + packet;
    RoundTrip(CONNECT_IP_CONTEXT_ID, packet);
    assert (c + packet)[|c|..] == packet;
  }

  // ---- Sending ----

  function FrameOf(packet: Packet): Frame { Frame(CAPSULE_DATAGRAM, packet) }

  function FramesOf(packets: seq<Packet>): (fs: seq<Frame>)
    ensures |fs| == |packets|
  {
    seq(|packets|, i requires 0 <= i < |packets| => FrameOf(packets[i]))
  }

  /** Every queue holds packets far below the largest length a capsule can carry. */
  ghost predicate Carriable(packets: seq<Packet>) { forall p | p in packets :: |p| < MAX_VARINT }

  lemma CarriableFrames(packets: seq<Packet>)
    requires Carriable(packets)
    ensures forall f | f in FramesOf(packets) :: Framable(f)
  {
    forall f | f in FramesOf(packets)
      ensures Framable(f)
    {
      var i :| 0 <= i < |packets| && f == FrameOf(packets[i]);
      assert packets[i] in packets;
    }
  }

  function EncodePackets(packets: seq<Packet>): seq<Byte>
    requires Carriable(packets)
  {
    CarriableFrames(packets);
    EncodeFrames(FramesOf(packets))
  }

  lemma {:induction false} EncodeFramesAppend(a: seq<Frame>, b: seq<Frame>)
    requires forall f | f in a + b :: Framable(f)
    ensures (forall f | f in a :: f in a + b) && (forall f | f in b :: f in a + b)
    ensures EncodeFrames(a + b) == EncodeFrames(a) + EncodeFrames(b)
    decreases |a|
  {
    hide EncodeFrame;
    if a == [] {
      assert a + b == b;
    } else {
      assert (a + b)[1..] == a[1..] + b;
      assert forall f | f in a[1..] + b :: f in a + b;
      EncodeFramesAppend(a[1..], b);
      assert EncodeFrame(a[0]) + (EncodeFrames(a[1..]) + EncodeFrames(b)) ==
             EncodeFrame(a[0]) + EncodeFrames(a[1..]) + EncodeFrames(b);
    }
  }

  lemma EncodePacketsAppend(a: seq<Packet>, p: Packet)
    requires Carriable(a + [p])
    ensures Carriable(a) && Framable(FrameOf(p))
    ensures EncodePackets(a + [p]) == EncodePackets(a) + EncodeFrame(FrameOf(p))
  {
    hide EncodeFrame, EncodeFrames;
    assert forall x | x in a :: x in a + [p];
    assert p in a + [p];
    assert FramesOf(a + [p]) == FramesOf(a) + [FrameOf(p)];
    CarriableFrames(a + [p]);
    EncodeFramesAppend(FramesOf(a), [FrameOf(p)]);
    OneEncoded(FrameOf(p));
  }

  lemma OneEncoded(f: Frame)
    requires Framable(f)
    ensures EncodeFrames([f]) == EncodeFrame(f)
  {
    assert EncodeFrames([f]) == EncodeFrame(f) + EncodeFrames([f][1..]);
  }

  /** One capsule onto the end of `out`. */
  method AppendCapsule(out: seq<Byte>, kind: nat, value: seq<Byte>) returns (longer: seq<Byte>)
    requires Framable(Frame(kind, value))
    ensures longer == out + EncodeFrame(Frame(kind, value))
  {
    longer := out + PutVarint(kind);
    longer := longer + PutVarint(|value|);
    longer := longer + value;
    assert longer == out + (PutVarint(kind) + PutVarint(|value|) + value);
  }

  /** The packets of one frame of HTTP/2: the first of the queue, and those behind it while there is
      room. The batch holds a prefix of the queue, in order, one capsule each; before its last capsule
      it is below the bound; and it stops only at the bound or at the end of the queue. */
  method TakeBatch(queue: seq<Packet>) returns (batch: seq<Byte>, n: nat)
    requires queue != [] && Carriable(queue)
    ensures 1 <= n <= |queue| && Carriable(queue[..n]) && Carriable(queue[..n - 1])
    ensures batch == EncodePackets(queue[..n])
    ensures n > 1 ==> |EncodePackets(queue[..n - 1])| < 32_768
    ensures |batch| >= 32_768 || n == |queue|
  {
    hide EncodeFrames;
    Prefix(queue, 0);
    Prefix(queue, 1);
    assert queue[..0] + [queue[0]] == queue[..1];
    EncodePacketsAppend(queue[..0], queue[0]);
    NonePacked();
    batch := AppendCapsule([], CAPSULE_DATAGRAM, queue[0]);
    n := 1;
    while |batch| < H2_SEND_BATCH_BYTES && n < |queue|
      invariant 1 <= n <= |queue| && Carriable(queue[..n]) && Carriable(queue[..n - 1])
      invariant batch == EncodePackets(queue[..n])
      invariant n > 1 ==> |EncodePackets(queue[..n - 1])| < H2_SEND_BATCH_BYTES
    {
      Prefix(queue, n + 1);
      assert queue[..n] + [queue[n]] == queue[..n + 1];
      EncodePacketsAppend(queue[..n], queue[n]);
      batch := AppendCapsule(batch, CAPSULE_DATAGRAM, queue[n]);
      n := n + 1;
    }
  }

  lemma Prefix(queue: seq<Packet>, n: nat)
    requires Carriable(queue) && n <= |queue|
    ensures Carriable(queue[..n])
  {
    assert forall p | p in queue[..n] :: p in queue;
  }

  lemma NonePacked()
    ensures EncodePackets([]) == []
  {
  }

  /** What the sender does next: a packet joins the queue, a control capsule goes out, or the loop sends a
      batch of the first `count` of the queue. */
  datatype Action = Arrive(packet: Packet) | Control(frame: Frame) | Batch(count: nat)

  /** The sender: what waits, what it has put on the wire, and the frames that is. */
  datatype Sender = Sender(queue: seq<Packet>, wire: seq<Byte>, sent: seq<Frame>)

  ghost predicate MayAct(s: Sender, a: Action) {
    match a
    case Arrive(p) => |p| < MAX_VARINT
    case Control(f) => Framable(f)
    case Batch(n) => 1 <= n <= |s.queue| && Carriable(s.queue)
  }

  ghost function Act(s: Sender, a: Action): Sender
    requires MayAct(s, a)
  {
    match a
    case Arrive(p) => s.(queue := s.queue + [p])
    case Control(f) => s.(wire := s.wire + EncodeFrame(f), sent := s.sent + [f])
    case Batch(n) =>
      Prefix(s.queue, n);
      Sender(s.queue[n..], s.wire + EncodePackets(s.queue[..n]), s.sent + FramesOf(s.queue[..n]))
  }

  ghost predicate MayRun(s: Sender, actions: seq<Action>)
    decreases |actions|
  {
    actions == [] || (MayAct(s, actions[0]) && MayRun(Act(s, actions[0]), actions[1..]))
  }

  ghost function RunSender(s: Sender, actions: seq<Action>): Sender
    requires MayRun(s, actions)
    decreases |actions|
  {
    if actions == [] then s else RunSender(Act(s, actions[0]), actions[1..])
  }

  function Arrived(actions: seq<Action>): seq<Packet> {
    if actions == [] then []
    else (if actions[0].Arrive? then [actions[0].packet] else []) + Arrived(actions[1..])
  }

  function Controls(actions: seq<Action>): seq<Frame> {
    if actions == [] then []
    else (if actions[0].Control? then [actions[0].frame] else []) + Controls(actions[1..])
  }

  /** Whether `all` is `a` and `b` put together, each in its own order. */
  ghost predicate Interleaves<T>(all: seq<T>, a: seq<T>, b: seq<T>) {
    if all == [] then a == [] && b == []
    else
      var init, last := all[..|all| - 1], all[|all| - 1];
      || (a != [] && last == a[|a| - 1] && Interleaves(init, a[..|a| - 1], b))
      || (b != [] && last == b[|b| - 1] && Interleaves(init, a, b[..|b| - 1]))
  }

  /** The wire is the encoding of the frames sent. */
  ghost predicate WireHolds(s: Sender) {
    (forall f | f in s.sent :: Framable(f)) && s.wire == EncodeFrames(s.sent)
  }

  /** What was sent is what arrived but for what waits, interleaved with the control capsules. */
  ghost predicate QueueHolds(s: Sender, packets: seq<Packet>, controls: seq<Frame>) {
    && |s.queue| <= |packets| && packets[|packets| - |s.queue|..] == s.queue
    && Interleaves(s.sent, FramesOf(packets[..|packets| - |s.queue|]), controls)
  }

  ghost predicate Sending(s: Sender, packets: seq<Packet>, controls: seq<Frame>) {
    Carriable(s.queue) && WireHolds(s) && QueueHolds(s, packets, controls)
  }

  lemma {:induction false} InterleavesMore<T>(all: seq<T>, a: seq<T>, b: seq<T>, more: seq<T>)
    requires Interleaves(all, a, b)
    ensures Interleaves(all + more, a + more, b)
    decreases |more|
  {
    if more == [] {
      assert all + more == all && a + more == a;
    } else {
      var init, longer := more[..|more| - 1], all + more;
      InterleavesMore(all, a, b, init);
      assert longer[..|longer| - 1] == all + init;
      assert (a + more)[..|a + more| - 1] == a + init;
    }
  }

  lemma InterleavesOne<T>(all: seq<T>, a: seq<T>, b: seq<T>, x: T)
    requires Interleaves(all, a, b)
    ensures Interleaves(all + [x], a + [x], b) && Interleaves(all + [x], a, b + [x])
  {
    InterleavesMore(all, a, b, [x]);
    assert (all + [x])[..|all|] == all && (b + [x])[..|b|] == b;
  }

  lemma WireGrows(s: Sender, more: seq<Frame>)
    requires WireHolds(s) && forall f | f in more :: Framable(f)
    ensures WireHolds(s.(wire := s.wire + EncodeFrames(more), sent := s.sent + more))
  {
    hide EncodeFrames;
    EncodeFramesAppend(s.sent, more);
  }

  lemma ActWire(s: Sender, a: Action)
    requires WireHolds(s) && MayAct(s, a)
    ensures WireHolds(Act(s, a))
  {
    hide EncodeFrame, EncodeFrames, WireHolds;
    match a {
      case Arrive(p) => SameWire(s, s.(queue := s.queue + [p]));
      case Control(f) =>
        WireGrows(s, [f]);
        OneEncoded(f);
      case Batch(n) =>
        Prefix(s.queue, n);
        CarriableFrames(s.queue[..n]);
        WireGrows(s, FramesOf(s.queue[..n]));
        SameWire(s.(wire := s.wire + EncodePackets(s.queue[..n]), sent := s.sent + FramesOf(s.queue[..n])), Act(s, a));
    }
  }

  lemma SameWire(s: Sender, t: Sender)
    requires WireHolds(s) && t.wire == s.wire && t.sent == s.sent
    ensures WireHolds(t)
  {
  }

  lemma QueueCut(packets: seq<Packet>, queue: seq<Packet>, n: nat)
    requires |queue| <= |packets| && packets[|packets| - |queue|..] == queue && n <= |queue|
    ensures var left := queue[n..];
            && packets[..|packets| - |left|] == packets[..|packets| - |queue|] + queue[..n]
            && packets[|packets| - |left|..] == left
  {
    var done := packets[..|packets| - |queue|];
    assert packets == done + queue && queue == queue[..n] + queue[n..];
  }

  lemma QueueJoins(packets: seq<Packet>, queue: seq<Packet>, p: Packet)
    requires |queue| <= |packets| && packets[|packets| - |queue|..] == queue
    ensures var longer, waiting := packets + [p], queue + [p];
            && longer[..|longer| - |waiting|] == packets[..|packets| - |queue|]
            && longer[|longer| - |waiting|..] == waiting
  {
    assert packets == packets[..|packets| - |queue|] + queue;
  }

  lemma FramesOfAppend(a: seq<Packet>, b: seq<Packet>)
    ensures FramesOf(a + b) == FramesOf(a) + FramesOf(b)
  {
  }

  lemma ActQueue(s: Sender, a: Action, packets: seq<Packet>, controls: seq<Frame>)
    requires QueueHolds(s, packets, controls) && MayAct(s, a)
    ensures QueueHolds(Act(s, a), packets + Arrived([a]), controls + Controls([a]))
  {
    hide EncodeFrame, EncodeFrames, Interleaves, FramesOf;
    assert [a][1..] == [];
    assert Arrived([a]) == if a.Arrive? then [a.packet] else [];
    assert Controls([a]) == if a.Control? then [a.frame] else [];
    assert packets + [] == packets && controls + [] == controls;
    var done := packets[..|packets| - |s.queue|];
    match a {
      case Arrive(p) => QueueJoins(packets, s.queue, p);
      case Control(f) => InterleavesOne(s.sent, FramesOf(done), controls, f);
      case Batch(n) =>
        QueueCut(packets, s.queue, n);
        InterleavesMore(s.sent, FramesOf(done), controls, FramesOf(s.queue[..n]));
        FramesOfAppend(done, s.queue[..n]);
    }
  }

  lemma ActSends(s: Sender, a: Action, packets: seq<Packet>, controls: seq<Frame>)
    requires Sending(s, packets, controls) && MayAct(s, a)
    ensures Sending(Act(s, a), packets + Arrived([a]), controls + Controls([a]))
  {
    hide EncodeFrame, EncodeFrames, WireHolds, QueueHolds, Arrived, Controls;
    ActWire(s, a);
    ActQueue(s, a, packets, controls);
    if a.Batch? {
      assert forall p | p in s.queue[a.count..] :: p in s.queue;
    }
  }

  lemma FirstAction(actions: seq<Action>)
    requires actions != []
    ensures Arrived(actions) == Arrived([actions[0]]) + Arrived(actions[1..])
    ensures Controls(actions) == Controls([actions[0]]) + Controls(actions[1..])
  {
    var a := actions[0];
    assert [a][1..] == [];
    NoActions();
    assert Arrived([a]) == if a.Arrive? then [a.packet] else [];
    assert Controls([a]) == if a.Control? then [a.frame] else [];
  }

  /** Batching refines one capsule per packet: over every run of arrivals, control capsules and batch
      cuts, the wire is the encoding of single frames, in which the packets that arrived come in their
      order, but for those still queued, and the control capsules in theirs. */
  lemma {:induction false} BatchingRefines(s: Sender, actions: seq<Action>, packets: seq<Packet>, controls: seq<Frame>)
    requires Sending(s, packets, controls) && MayRun(s, actions)
    ensures Sending(RunSender(s, actions), packets + Arrived(actions), controls + Controls(actions))
    decreases |actions|
  {
    hide Sending, Act, Arrived, Controls;
    if actions == [] {
      NoActions();
      assert packets + [] == packets && controls + [] == controls;
    } else {
      var a := actions[0];
      ActSends(s, a, packets, controls);
      BatchingRefines(Act(s, a), actions[1..], packets + Arrived([a]), controls + Controls([a]));
      FirstAction(actions);
      assert packets + Arrived([a]) + Arrived(actions[1..]) == packets + (Arrived([a]) + Arrived(actions[1..]));
      assert controls + Controls([a]) + Controls(actions[1..]) == controls + (Controls([a]) + Controls(actions[1..]));
    }
  }

  lemma NoActions()
    ensures Arrived([]) == [] && Controls([]) == []
  {
  }

  // ---- The sender's loop ----

  datatype SenderMsg = Framed(frame: Frame) | Finish

  /** What comes in before one round of the loop: packets, control messages, and whether the packets' senders are
      gone. */
  datatype Coming = Coming(packets: seq<Packet>, msgs: seq<SenderMsg>, gone: bool)

  /** The capsules among control messages. */
  function FramesAmong(msgs: seq<SenderMsg>): seq<Frame>
    decreases |msgs|
  {
    if msgs == [] then []
    else
      var init, last := msgs[..|msgs| - 1], msgs[|msgs| - 1];
      FramesAmong(init) + if last.Framed? then [last.frame] else []
  }

  lemma {:induction false} RunOn(s: Sender, actions: seq<Action>, a: Action)
    requires MayRun(s, actions) && MayAct(RunSender(s, actions), a)
    ensures MayRun(s, actions + [a]) && RunSender(s, actions + [a]) == Act(RunSender(s, actions), a)
    ensures Arrived(actions + [a]) == Arrived(actions) + Arrived([a])
    ensures Controls(actions + [a]) == Controls(actions) + Controls([a])
    decreases |actions|
  {
    hide Act, MayAct, Arrived, Controls;
    SeenOn(actions, a);
    if actions == [] {
      assert actions + [a] == [a] && [a][1..] == [];
    } else {
      RunOn(Act(s, actions[0]), actions[1..], a);
      assert (actions + [a])[0] == actions[0] && (actions + [a])[1..] == actions[1..] + [a];
    }
  }

  lemma {:induction false} SeenOn(actions: seq<Action>, a: Action)
    ensures Arrived(actions + [a]) == Arrived(actions) + Arrived([a])
    ensures Controls(actions + [a]) == Controls(actions) + Controls([a])
    decreases |actions|
  {
    if actions == [] {
      assert actions + [a] == [a];
    } else {
      SeenOn(actions[1..], a);
      assert (actions + [a])[0] == actions[0] && (actions + [a])[1..] == actions[1..] + [a];
      var head := if actions[0].Arrive? then [actions[0].packet] else [];
      assert head + (Arrived(actions[1..]) + Arrived([a])) == head + Arrived(actions[1..]) + Arrived([a]);
      var first := if actions[0].Control? then [actions[0].frame] else [];
      assert first + (Controls(actions[1..]) + Controls([a])) == first + Controls(actions[1..]) + Controls([a]);
    }
  }

  lemma OneAction(a: Action)
    ensures Arrived([a]) == (if a.Arrive? then [a.packet] else [])
    ensures Controls([a]) == (if a.Control? then [a.frame] else [])
  {
    assert [a][1..] == [];
  }

  /** Whether the sender, run by `actions`, holds what the loop holds. */
  ghost predicate Runs(actions: seq<Action>, queue: seq<Packet>, sends: seq<seq<Byte>>) {
    && MayRun(Sender([], [], []), actions)
    && RunSender(Sender([], [], []), actions).queue == queue
    && RunSender(Sender([], [], []), actions).wire == Flatten(sends)
  }

  /** Whether one send is a control capsule, or a batch that is below the bound before its last capsule. */
  ghost predicate OneSend(send: seq<Byte>) {
    || (exists f :: Framable(f) && send == EncodeFrame(f))
    || (exists ps :: Carriable(ps) && BatchOf(ps) && send == EncodePackets(ps))
  }

  ghost predicate BatchOf(ps: seq<Packet>)
    requires Carriable(ps)
  {
    && ps != [] && (forall p | p in ps[..|ps| - 1] :: |p| < MAX_VARINT)
    && (|ps| > 1 ==> |EncodePackets(ps[..|ps| - 1])| < 32_768)
  }

  lemma Joins(actions: seq<Action>, queue: seq<Packet>, sends: seq<seq<Byte>>, p: Packet)
    requires Runs(actions, queue, sends) && |p| < MAX_VARINT
    ensures Runs(actions + [Arrive(p)], queue + [p], sends)
    ensures Arrived(actions + [Arrive(p)]) == Arrived(actions) + [p]
    ensures Controls(actions + [Arrive(p)]) == Controls(actions)
  {
    hide MayRun, RunSender, Arrived, Controls;
    RunOn(Sender([], [], []), actions, Arrive(p));
    OneAction(Arrive(p));
  }

  lemma SendsControl(actions: seq<Action>, queue: seq<Packet>, sends: seq<seq<Byte>>, f: Frame)
    requires Runs(actions, queue, sends) && Framable(f)
    ensures Runs(actions + [Control(f)], queue, sends + [EncodeFrame(f)]) && OneSend(EncodeFrame(f))
    ensures Arrived(actions + [Control(f)]) == Arrived(actions)
    ensures Controls(actions + [Control(f)]) == Controls(actions) + [f]
  {
    hide MayRun, RunSender, Arrived, Controls, EncodeFrame, Flatten;
    RunOn(Sender([], [], []), actions, Control(f));
    OneAction(Control(f));
    FlattenOne(sends, EncodeFrame(f));
  }

  lemma SendsBatch(actions: seq<Action>, queue: seq<Packet>, sends: seq<seq<Byte>>, n: nat)
    requires Runs(actions, queue, sends) && Carriable(queue) && 1 <= n <= |queue|
    requires Carriable(queue[..n]) && Carriable(queue[..n - 1])
    requires n > 1 ==> |EncodePackets(queue[..n - 1])| < H2_SEND_BATCH_BYTES
    ensures Runs(actions + [Batch(n)], queue[n..], sends + [EncodePackets(queue[..n])])
    ensures OneSend(EncodePackets(queue[..n]))
    ensures Arrived(actions + [Batch(n)]) == Arrived(actions) && Controls(actions + [Batch(n)]) == Controls(actions)
  {
    hide MayRun, RunSender, Arrived, Controls, EncodePackets, Flatten;
    RunOn(Sender([], [], []), actions, Batch(n));
    OneAction(Batch(n));
    FlattenOne(sends, EncodePackets(queue[..n]));
    assert queue[..n][..n - 1] == queue[..n - 1];
    assert BatchOf(queue[..n]);
  }

  lemma FlattenOne(sends: seq<seq<Byte>>, send: seq<Byte>)
    ensures Flatten(sends + [send]) == Flatten(sends) + send
  {
    FlattenAppend(sends, [send]);
    assert Flatten([send]) == send + Flatten<Byte>([]) == send;
  }

  lemma {:induction false} JoinsAll(actions: seq<Action>, queue: seq<Packet>, sends: seq<seq<Byte>>, ps: seq<Packet>)
    returns (more: seq<Action>)
    requires Runs(actions, queue, sends) && Carriable(ps)
    ensures Runs(more, queue + ps, sends)
    ensures Arrived(more) == Arrived(actions) + ps && Controls(more) == Controls(actions)
    decreases |ps|
  {
    hide Runs, Arrived, Controls;
    if ps == [] {
      more := actions;
      assert queue + ps == queue && Arrived(actions) + ps == Arrived(actions);
    } else {
      var init, p := ps[..|ps| - 1], ps[|ps| - 1];
      assert p in ps && ps == init + [p] && forall q | q in init :: q in ps;
      var fewer := JoinsAll(actions, queue, sends, init);
      Joins(fewer, queue + init, sends, p);
      more := fewer + [Arrive(p)];
      assert queue + init + [p] == queue + ps && Arrived(actions) + init + [p] == Arrived(actions) + ps;
    }
  }

  /** The sender's loop: the packets and control messages that wait, what it has sent, and whether it has ended. */
  datatype Pumping = Pumping(queue: seq<Packet>, msgs: seq<SenderMsg>, sends: seq<seq<Byte>>, ended: bool)

  const NEW_PUMP := Pumping([], [], [], false)

  /** Whether a batch of the first `n` of the queue stops where the bound or the queue's end stops it. */
  ghost predicate FullBatch(queue: seq<Packet>, n: nat)
    requires Carriable(queue)
  {
    && 1 <= n <= |queue| && Carriable(queue[..n]) && Carriable(queue[..n - 1])
    && (n > 1 ==> |EncodePackets(queue[..n - 1])| < H2_SEND_BATCH_BYTES)
    && (|EncodePackets(queue[..n])| >= H2_SEND_BATCH_BYTES || n == |queue|)
  }

  ghost predicate Sound(c: Coming) {
    Carriable(c.packets) && forall m | m in c.msgs && m.Framed? :: Framable(m.frame)
  }

  /** One round: a control message when there is one, else a batch when there are packets; it ends when it is
      asked to finish, or when nothing waits and no packet can come any more. */
  ghost predicate PumpRound(s: Pumping, c: Coming, next: Pumping) {
    var queue, msgs := s.queue + c.packets, s.msgs + c.msgs;
    if msgs != [] then
      && next.queue == queue && next.msgs == msgs[1..] && next.ended == msgs[0].Finish?
      && (msgs[0].Framed? ==> Framable(msgs[0].frame) && next.sends == s.sends + [EncodeFrame(msgs[0].frame)])
      && (msgs[0].Finish? ==> next.sends == s.sends)
    else if queue != [] then
      && Carriable(queue) && next.msgs == [] && !next.ended
      && exists n: nat ::
           FullBatch(queue, n) && next == Pumping(queue[n..], [], s.sends + [EncodePackets(queue[..n])], false)
    else next == s.(ended := c.gone)
  }

  ghost predicate PumpRounds(ps: seq<Pumping>, comings: seq<Coming>) {
    && |ps| == |comings| + 1 && ps[0] == NEW_PUMP
    && forall i | 0 <= i < |comings| :: !ps[i].ended && PumpRound(ps[i], comings[i], ps[i + 1])
  }

  /** The loop that owns the stream, up to the round in which it ends. */
  method PumpOutbound(comings: seq<Coming>) returns (turns: nat, sends: seq<seq<Byte>>, ghost ps: seq<Pumping>)
    requires forall c | c in comings :: Sound(c)
    ensures turns <= |comings| && PumpRounds(ps, comings[..turns]) && ps[turns].sends == sends
    ensures turns < |comings| ==> ps[turns].ended
  {
    hide EncodeFrame, EncodeFrames;
    var queue: seq<Packet>, msgs: seq<SenderMsg>, ended := [], [], false;
    turns, sends, ps := 0, [], [NEW_PUMP];
    while turns < |comings| && !ended
      invariant turns <= |comings| && |ps| == turns + 1 && ps[0] == NEW_PUMP
      invariant ps[turns] == Pumping(queue, msgs, sends, ended) && Carriable(queue)
      invariant forall m | m in msgs && m.Framed? :: Framable(m.frame)
      invariant forall i | 0 <= i < turns :: !ps[i].ended && PumpRound(ps[i], comings[i], ps[i + 1])
    {
      var c := comings[turns];
      assert Sound(c);
      queue, msgs := queue + c.packets, msgs + c.msgs;
      if msgs != [] {
        var msg := msgs[0];
        assert msg in msgs;
        if msg.Framed? {
          var framed := AppendCapsule([], msg.frame.kind, msg.frame.value);
          assert [] + EncodeFrame(msg.frame) == EncodeFrame(msg.frame);
          sends := sends + [framed];
        } else {
          ended := true;
        }
        msgs := msgs[1..];
      } else if queue != [] {
        var batch, n := TakeBatch(queue);
        assert FullBatch(queue, n);
        assert forall p | p in queue[n..] :: p in queue;
        sends, queue := sends + [batch], queue[n..];
      } else {
        ended := c.gone;
      }
      ghost var next := Pumping(queue, msgs, sends, ended);
      assert PumpRound(ps[turns], c, next);
      ps, turns := ps + [next], turns + 1;
    }
  }

  lemma {:induction false} FramesAmongAppend(a: seq<SenderMsg>, b: seq<SenderMsg>)
    ensures FramesAmong(a + b) == FramesAmong(a) + FramesAmong(b)
    decreases |b|
  {
    if b == [] {
      assert a + b == a && FramesAmong(a) + [] == FramesAmong(a);
    } else {
      var init, last := b[..|b| - 1], b[|b| - 1];
      FramesAmongAppend(a, init);
      assert (a + b)[..|a + b| - 1] == a + init && (a + b)[|a + b| - 1] == last;
      var f := if last.Framed? then [last.frame] else [];
      assert FramesAmong(a) + FramesAmong(init) + f == FramesAmong(a) + (FramesAmong(init) + f);
    }
  }

  /** What one round does, as actions of the sender. */
  lemma RoundActs(s: Pumping, c: Coming, next: Pumping, actions: seq<Action>) returns (more: seq<Action>)
    requires Runs(actions, s.queue, s.sends) && Sound(c) && PumpRound(s, c, next)
    requires forall send | send in s.sends :: OneSend(send)
    ensures Runs(more, next.queue, next.sends) && forall send | send in next.sends :: OneSend(send)
    ensures Arrived(more) == Arrived(actions) + c.packets
    ensures Controls(more) + FramesAmong(next.msgs) == Controls(actions) + FramesAmong(s.msgs) + FramesAmong(c.msgs)
  {
    hide Runs, Arrived, Controls, FramesAmong, OneSend, EncodePackets, EncodeFrame;
    var queue, msgs := s.queue + c.packets, s.msgs + c.msgs;
    FramesAmongAppend(s.msgs, c.msgs);
    assert Controls(actions) + (FramesAmong(s.msgs) + FramesAmong(c.msgs))
           == Controls(actions) + FramesAmong(s.msgs) + FramesAmong(c.msgs);
    more := JoinsAll(actions, s.queue, s.sends, c.packets);
    if msgs != [] {
      FirstMsg(msgs);
      if msgs[0].Framed? {
        SendsControl(more, queue, s.sends, msgs[0].frame);
        more := more + [Control(msgs[0].frame)];
        assert Controls(actions) + [msgs[0].frame] + FramesAmong(msgs[1..])
               == Controls(actions) + ([msgs[0].frame] + FramesAmong(msgs[1..]));
      }
    } else if queue != [] {
      var n: nat :| FullBatch(queue, n)
                    && next == Pumping(queue[n..], [], s.sends + [EncodePackets(queue[..n])], false);
      SendsBatch(more, queue, s.sends, n);
      more := more + [Batch(n)];
    }
  }

  lemma FirstMsg(msgs: seq<SenderMsg>)
    requires msgs != []
    ensures FramesAmong(msgs) == (if msgs[0].Framed? then [msgs[0].frame] else []) + FramesAmong(msgs[1..])
  {
    FramesAmongAppend([msgs[0]], msgs[1..]);
    assert [msgs[0]] + msgs[1..] == msgs && [msgs[0]][..0] == [];
  }

  function PacketsOf(comings: seq<Coming>): seq<Packet>
    decreases |comings|
  {
    if comings == [] then [] else PacketsOf(comings[..|comings| - 1]) + comings[|comings| - 1].packets
  }

  function MsgsOf(comings: seq<Coming>): seq<SenderMsg>
    decreases |comings|
  {
    if comings == [] then [] else MsgsOf(comings[..|comings| - 1]) + comings[|comings| - 1].msgs
  }

  /** The sender's loop is a run of the sender: what it has sent, one control capsule or one batch below its bound
      at a time, is the wire of a run in which exactly the packets that came arrived and exactly the control
      capsules that came, but for those still waiting, went out. */
  lemma {:induction false} PumpRuns(ps: seq<Pumping>, comings: seq<Coming>) returns (actions: seq<Action>)
    requires PumpRounds(ps, comings) && forall c | c in comings :: Sound(c)
    ensures var p := ps[|comings|];
            && Runs(actions, p.queue, p.sends) && (forall send | send in p.sends :: OneSend(send))
            && Arrived(actions) == PacketsOf(comings)
            && Controls(actions) + FramesAmong(p.msgs) == FramesAmong(MsgsOf(comings))
    decreases |comings|
  {
    hide PumpRound, Runs, OneSend, Arrived, Controls, FramesAmong, Sound;
    if comings == [] {
      actions := [];
      NothingPumped();
    } else {
      var init, c := comings[..|comings| - 1], comings[|comings| - 1];
      assert c in comings && forall x | x in init :: x in comings;
      assert PumpRounds(ps[..|comings|], init);
      var fewer := PumpRuns(ps[..|comings|], init);
      actions := RoundActs(ps[|init|], c, ps[|comings|], fewer);
      FramesAmongAppend(MsgsOf(init), c.msgs);
    }
  }

  lemma NothingPumped()
    ensures Runs([], [], []) && Arrived([]) == [] && Controls([]) == [] && FramesAmong([]) == []
  {
  }

  // ---- Receiving ----

  /** The packets that frames carry. */
  function PacketsIn(fs: seq<Frame>): seq<Packet> {
    if fs == [] then []
    else
      var strip := if fs[0].kind == CAPSULE_DATAGRAM then Strip(fs[0].value) else None;
      (if strip.Some? then [strip.value] else []) + PacketsIn(fs[1..])
  }

  function AddressesOf(f: Frame): seq<AssignedAddress> {
    var m := Meaning(f);
    if m.Ok? && m.value.AddressAssign? then m.value.addresses else []
  }

  function AddressesIn(fs: seq<Frame>): seq<AssignedAddress> {
    if fs == [] then [] else AddressesOf(fs[0]) + AddressesIn(fs[1..])
  }

  /** What the hand-over of a packet meets: room, a full queue, or a queue nobody reads any more. */
  datatype Room = Free | Full | Gone

  /** How many frames one drain takes, the hand-overs numbered from `k`: up to and with the first malformed
      one, or the first whose packet nobody is left to read. */
  function DrainCount(fs: seq<Frame>, room: nat -> Room, k: nat): (n: nat)
    ensures n <= |fs|
    decreases |fs|
  {
    if fs == [] then 0
    else
      var offered := |PacketsIn([fs[0]])|;
      if Meaning(fs[0]).Err? || (offered > 0 && room(k).Gone?) then 1 else 1 + DrainCount(fs[1..], room, k + offered)
  }

  lemma CountOne(fs: seq<Frame>, n: nat, room: nat -> Room, k: nat)
    requires n < |fs|
    ensures var offered := |PacketsIn([fs[n]])|;
            DrainCount(fs[n..], room, k) ==
            if Meaning(fs[n]).Err? || (offered > 0 && room(k).Gone?) then 1
            else 1 + DrainCount(fs[n + 1..], room, k + offered)
  {
    hide PacketsIn, Meaning;
    assert fs[n..][0] == fs[n] && fs[n..][1..] == fs[n + 1..];
  }

  lemma {:induction false} PacketsInAppend(a: seq<Frame>, b: seq<Frame>)
    ensures PacketsIn(a + b) == PacketsIn(a) + PacketsIn(b)
  {
    hide Strip;
    if a == [] {
      assert a + b == b;
    } else {
      PacketsInAppend(a[1..], b);
      assert (a + b)[1..] == a[1..] + b;
      var strip := if a[0].kind == CAPSULE_DATAGRAM then Strip(a[0].value) else None;
      var head := if strip.Some? then [strip.value] else [];
      assert head + (PacketsIn(a[1..]) + PacketsIn(b)) == head + PacketsIn(a[1..]) + PacketsIn(b);
    }
  }

  /** The packets whose hand-over, numbered from `k`, finds room. */
  function Kept(packets: seq<Packet>, room: nat -> Room, k: nat): seq<Packet> {
    if packets == [] then [] else (if room(k).Free? then [packets[0]] else []) + Kept(packets[1..], room, k + 1)
  }

  lemma {:induction false} KeptAppend(a: seq<Packet>, b: seq<Packet>, room: nat -> Room, k: nat)
    ensures Kept(a + b, room, k) == Kept(a, room, k) + Kept(b, room, k + |a|)
    decreases |a|
  {
    if a == [] {
      assert a + b == b;
    } else {
      KeptAppend(a[1..], b, room, k + 1);
      assert (a + b)[1..] == a[1..] + b;
      var head := if room(k).Free? then [a[0]] else [];
      var tail := Kept(b, room, k + |a|);
      assert head + (Kept(a[1..], room, k + 1) + tail) == head + Kept(a[1..], room, k + 1) + tail;
    }
  }

  /** With room for each, every packet is kept. */
  lemma {:induction false} AllKept(packets: seq<Packet>, room: nat -> Room, k: nat)
    requires forall i: nat :: room(i).Free?
    ensures Kept(packets, room, k) == packets
    decreases |packets|
  {
    if packets != [] {
      AllKept(packets[1..], room, k + 1);
    }
  }

  lemma TakeOne(fs: seq<Frame>, n: nat)
    requires n < |fs|
    ensures fs[n..][1..] == fs[n + 1..] && fs[..n + 1] == fs[..n] + [fs[n]]
    ensures PacketsIn(fs[..n + 1]) == PacketsIn(fs[..n]) + PacketsIn([fs[n]])
    ensures AddressesIn(fs[..n + 1]) == AddressesIn(fs[..n]) + AddressesIn([fs[n]])
  {
    assert fs[..n + 1] == fs[..n] + [fs[n]];
    PacketsInAppend(fs[..n], [fs[n]]);
    AddressesInAppend(fs[..n], [fs[n]]);
  }

  lemma {:induction false} AddressesInAppend(a: seq<Frame>, b: seq<Frame>)
    ensures AddressesIn(a + b) == AddressesIn(a) + AddressesIn(b)
  {
    hide AddressesOf;
    if a == [] {
      assert a + b == b;
    } else {
      AddressesInAppend(a[1..], b);
      assert (a + b)[1..] == a[1..] + b;
      var head := AddressesOf(a[0]);
      assert head + (AddressesIn(a[1..]) + AddressesIn(b)) == head + AddressesIn(a[1..]) + AddressesIn(b);
    }
  }

  /** What one frame gives a drain. */
  lemma OneIn(f: Frame)
    ensures var m := Meaning(f);
            && (m.Ok? && m.value.Datagram? ==>
                  && AddressesIn([f]) == []
                  && PacketsIn([f]) == (var p := Strip(m.value.payload); if p.Some? then [p.value] else []))
            && (m.Ok? && m.value.AddressAssign? ==> AddressesIn([f]) == m.value.addresses && PacketsIn([f]) == [])
            && (m.Err? || !(m.value.Datagram? || m.value.AddressAssign?) ==>
                  AddressesIn([f]) == [] && PacketsIn([f]) == [])
  {
    hide Strip, ParseAddresses, ParseRoutes;
    assert [f][1..] == [];
    assert PacketsIn([f][1..]) == [] && AddressesIn([f][1..]) == [];
  }

  lemma KeptOne(p: Packet, room: nat -> Room, k: nat)
    ensures Kept([p], room, k) == if room(k).Free? then [p] else []
  {
    assert [p][1..] == [];
  }

  /** Takes the capsules that have come until none is whole, one is malformed, or nobody reads the packets any
      more, handing each packet on when there is room: the packets handed on are those of the frames taken, in
      order, without the ones that found none, and the rest of the buffer is left for the next drain. */
  method DrainCapsules(parser: CapsuleParser, room: nat -> Room)
    returns (delivered: bool, handed: seq<Packet>, granted: seq<AssignedAddress>)
    modifies parser
    ensures var fs := Frames(old(parser.buf));
            var n := DrainCount(fs, room, 0);
            && Frames(parser.buf) == fs[n..] && Leftover(parser.buf) == Leftover(old(parser.buf))
            && handed == Kept(PacketsIn(fs[..n]), room, 0) && granted == AddressesIn(fs[..n])
            && delivered == (PacketsIn(fs[..n]) != [])
  {
    hide Meaning, Strip, PacketsIn, AddressesIn, Kept, Frames, Leftover, DrainCount, OneFrame;
    delivered, handed, granted := false, [], [];
    ghost var fs := Frames(parser.buf);
    ghost var n := 0;
    var offered := 0;
    NothingIn(room);
    assert fs[0..] == fs;
    while true
      invariant n <= |fs| && Frames(parser.buf) == fs[n..] && Leftover(parser.buf) == Leftover(old(parser.buf))
      invariant DrainCount(fs, room, 0) == n + DrainCount(fs[n..], room, offered)
      invariant offered == |PacketsIn(fs[..n])| && handed == Kept(PacketsIn(fs[..n]), room, 0)
      invariant granted == AddressesIn(fs[..n]) && delivered == (offered > 0)
      decreases |parser.buf|
    {
      var r := parser.Next();
      if r.None? {
        assert fs[n..] == [] && fs[..n] == fs;
        NoneToCount(room, offered);
        break;
      }
      TakeOne(fs, n);
      CountOne(fs, n, room, offered);
      OneIn(fs[n]);
      assert fs[n] == fs[n..][0];
      KeptAppend(PacketsIn(fs[..n]), PacketsIn([fs[n]]), room, 0);
      NothingIn(room);
      n := n + 1;
      if r.value.Err? {
        break;
      }
      match r.value.value {
        case Datagram(payload) =>
          var packet := Strip(payload);
          if packet.Some? {
            KeptOne(packet.value, room, offered);
            delivered := true;
            if room(offered).Free? {
              handed := handed + [packet.value];
            }
            offered := offered + 1;
            if room(offered - 1).Gone? {
              break;
            }
          }
        case AddressAssign(addresses) =>
          granted := granted + addresses;
        case _ =>
      }
    }
  }

  lemma NoneToCount(room: nat -> Room, k: nat)
    ensures DrainCount([], room, k) == 0
  {
  }

  lemma NothingIn(room: nat -> Room)
    ensures PacketsIn([]) == [] && AddressesIn([]) == [] && forall k :: Kept([], room, k) == []
  {
  }

  /** What a receiver has been given, what is in its buffer and whether that was ever cleared, and the
      packets it has taken and handed on, over rounds of one push and one drain. */
  datatype Receiver = Receiver(
    buf: seq<Byte>, given: seq<Byte>, cleared: bool, offered: seq<Packet>, handed: seq<Packet>)

  const NEW_RECEIVER := Receiver([], [], false, [], [])

  /** One push and one drain, with what each hand-over of the drain meets. */
  ghost predicate Round(r: Receiver, data: seq<Byte>, room: nat -> Room, next: Receiver) {
    var over := |r.buf| + |data| > MAX_CAPSULE_BUF;
    var buf := if over then [] else r.buf + data;
    var fs := Frames(buf);
    var n := DrainCount(fs, room, 0);
    && next.given == r.given + data && next.cleared == (r.cleared || over)
    && Frames(next.buf) == fs[n..] && Leftover(next.buf) == Leftover(buf)
    && next.offered == r.offered + PacketsIn(fs[..n])
    && next.handed == r.handed + Kept(PacketsIn(fs[..n]), room, 0)
  }

  ghost predicate Rounds(rs: seq<Receiver>, datas: seq<seq<Byte>>, rooms: seq<nat -> Room>) {
    && |rs| == |datas| + 1 && |rooms| == |datas| && rs[0] == NEW_RECEIVER
    && forall i | 0 <= i < |datas| :: Round(rs[i], datas[i], rooms[i], rs[i + 1])
  }

  /** One push and one drain. */
  method ReceiveOne(parser: CapsuleParser, data: seq<Byte>, room: nat -> Room, ghost r: Receiver)
    returns (more: seq<Packet>, ghost next: Receiver)
    requires r.buf == parser.buf
    modifies parser
    ensures Round(r, data, room, next) && next.buf == parser.buf && next.handed == r.handed + more
  {
    hide Frames, Leftover, PacketsIn, Kept, DrainCount;
    parser.Push(data);
    ghost var fs := Frames(parser.buf);
    var delivered, granted;
    delivered, more, granted := DrainCapsules(parser, room);
    next := Receiver(parser.buf, r.given + data, r.cleared || |r.buf| + |data| > MAX_CAPSULE_BUF,
                     r.offered + PacketsIn(fs[..DrainCount(fs, room, 0)]), r.handed + more);
  }

  /** Pushes each piece of the stream and drains what is whole behind it. */
  method ReceiveAll(parser: CapsuleParser, datas: seq<seq<Byte>>, rooms: seq<nat -> Room>)
    returns (handed: seq<Packet>, ghost rs: seq<Receiver>)
    requires parser.buf == [] && |rooms| == |datas|
    modifies parser
    ensures Rounds(rs, datas, rooms) && rs[|datas|].buf == parser.buf && rs[|datas|].handed == handed
  {
    hide Round;
    handed, rs := [], [NEW_RECEIVER];
    var i := 0;
    while i < |datas|
      invariant i <= |datas| && |rs| == i + 1 && rs[0] == NEW_RECEIVER
      invariant forall k | 0 <= k < i :: Round(rs[k], datas[k], rooms[k], rs[k + 1])
      invariant rs[i].buf == parser.buf && rs[i].handed == handed
    {
      ghost var next;
      var more;
      more, next := ReceiveOne(parser, datas[i], rooms[i], rs[i]);
      handed, rs, i := handed + more, rs + [next], i + 1;
    }
  }

  // ---- Delivery over runs ----

  /** Whether `a` is `b` without some of its elements, in the same order. */
  ghost predicate Subsequence<T>(a: seq<T>, b: seq<T>)
    decreases |b|
  {
    if b == [] then a == []
    else
      var init, last := b[..|b| - 1], b[|b| - 1];
      (a != [] && a[|a| - 1] == last && Subsequence(a[..|a| - 1], init)) || Subsequence(a, init)
  }

  lemma {:induction false} SubsequenceAppend<T>(a: seq<T>, b: seq<T>, c: seq<T>, d: seq<T>)
    requires Subsequence(a, b) && Subsequence(c, d)
    ensures Subsequence(a + c, b + d)
    decreases |d|
  {
    if d == [] {
      assert a + c == a && b + d == b;
    } else {
      var init, last := d[..|d| - 1], d[|d| - 1];
      assert (b + d)[..|b + d| - 1] == b + init && (b + d)[|b + d| - 1] == last;
      if c != [] && c[|c| - 1] == last && Subsequence(c[..|c| - 1], init) {
        SubsequenceAppend(a, b, c[..|c| - 1], init);
        assert (a + c)[..|a + c| - 1] == a + c[..|c| - 1] && (a + c)[|a + c| - 1] == last;
      } else {
        SubsequenceAppend(a, b, c, init);
      }
    }
  }

  lemma {:induction false} NothingIsSubsequence<T>(b: seq<T>)
    ensures Subsequence([], b)
    decreases |b|
  {
    if b != [] {
      NothingIsSubsequence(b[..|b| - 1]);
    }
  }

  /** What is kept of packets is a subsequence of them. */
  lemma {:induction false} KeptSubsequence(packets: seq<Packet>, room: nat -> Room, k: nat)
    ensures Subsequence(Kept(packets, room, k), packets)
    decreases |packets|
  {
    if packets != [] {
      KeptSubsequence(packets[1..], room, k + 1);
      var head := if room(k).Free? then [packets[0]] else [];
      OneOrNone(packets[0], room(k).Free?);
      SubsequenceAppend(head, [packets[0]], Kept(packets[1..], room, k + 1), packets[1..]);
      assert [packets[0]] + packets[1..] == packets;
    }
  }

  lemma OneOrNone<T>(x: T, kept: bool)
    ensures Subsequence(if kept then [x] else [], [x])
  {
    NothingIsSubsequence<T>([]);
    assert [x][..0] == [];
  }

  /** What was taken and what is still in the buffer are the packets of all that came, in order. */
  ghost predicate Receives(r: Receiver) {
    && PacketsIn(Frames(r.given)) == r.offered + PacketsIn(Frames(r.buf))
    && Leftover(r.given) == Leftover(r.buf)
  }

  lemma RoundReceives(r: Receiver, data: seq<Byte>, room: nat -> Room, next: Receiver)
    requires Receives(r) && Round(r, data, room, next) && !next.cleared
    ensures Receives(next)
  {
    hide Frames, Leftover, PacketsIn, DrainCount, Kept;
    var fs := Frames(r.buf + data);
    var n := DrainCount(fs, room, 0);
    var tail := Frames(Leftover(r.buf) + data);
    FramesExtend(r.given, data);
    FramesExtend(r.buf, data);
    PacketsInAppend(Frames(r.given), tail);
    PacketsInAppend(Frames(r.buf), tail);
    PacketsInAppend(fs[..n], fs[n..]);
    assert fs == fs[..n] + fs[n..];
    assert r.offered + PacketsIn(Frames(r.buf)) + PacketsIn(tail) == r.offered + PacketsIn(fs);
    assert r.offered + (PacketsIn(fs[..n]) + PacketsIn(fs[n..])) == next.offered + PacketsIn(fs[n..]);
  }

  /** Over every run of rounds, whatever finds no room: the packets taken and those still in the buffer are
      the packets of all that came, in order, as long as the buffer was not cleared. */
  lemma {:induction false} TakesInOrder(rs: seq<Receiver>, datas: seq<seq<Byte>>, rooms: seq<nat -> Room>, k: nat)
    requires Rounds(rs, datas, rooms) && k <= |datas| && !rs[k].cleared
    ensures Receives(rs[k])
  {
    hide Receives;
    if k == 0 {
      NothingReceived();
    } else {
      assert Round(rs[k - 1], datas[k - 1], rooms[k - 1], rs[k]);
      NeverUncleared(rs[k - 1], datas[k - 1], rooms[k - 1], rs[k]);
      TakesInOrder(rs, datas, rooms, k - 1);
      RoundReceives(rs[k - 1], datas[k - 1], rooms[k - 1], rs[k]);
    }
  }

  lemma NeverUncleared(r: Receiver, data: seq<Byte>, room: nat -> Room, next: Receiver)
    requires Round(r, data, room, next)
    ensures r.cleared ==> next.cleared
  {
  }

  lemma NothingReceived()
    ensures Receives(NEW_RECEIVER)
  {
  }

  /** Over every run of rounds what was handed on is a subsequence of what was taken, and all of it when
      every hand-over found room. */
  lemma {:induction false} HandsOn(rs: seq<Receiver>, datas: seq<seq<Byte>>, rooms: seq<nat -> Room>, k: nat)
    requires Rounds(rs, datas, rooms) && k <= |datas|
    ensures Subsequence(rs[k].handed, rs[k].offered)
    ensures (forall i, j: nat | 0 <= i < k :: rooms[i](j).Free?) ==> rs[k].handed == rs[k].offered
  {
    hide Subsequence, PacketsIn, Kept, Frames, Leftover, DrainCount;
    if k == 0 {
      NothingIsSubsequence<Packet>([]);
    } else {
      var r, room := rs[k - 1], rooms[k - 1];
      assert Round(r, datas[k - 1], room, rs[k]);
      HandsOn(rs, datas, rooms, k - 1);
      RoundHands(r, datas[k - 1], room, rs[k]);
    }
  }

  lemma RoundHands(r: Receiver, data: seq<Byte>, room: nat -> Room, next: Receiver)
    requires Round(r, data, room, next) && Subsequence(r.handed, r.offered)
    ensures Subsequence(next.handed, next.offered)
    ensures r.handed == r.offered && (forall j: nat :: room(j).Free?) ==> next.handed == next.offered
  {
    hide Subsequence, PacketsIn, Kept, Frames, Leftover, DrainCount;
    var fs := Frames(if |r.buf| + |data| > MAX_CAPSULE_BUF then [] else r.buf + data);
    var taken := PacketsIn(fs[..DrainCount(fs, room, 0)]);
    KeptSubsequence(taken, room, 0);
    SubsequenceAppend(r.handed, r.offered, Kept(taken, room, 0), taken);
    if forall j: nat :: room(j).Free? {
      AllKept(taken, room, 0);
    }
  }

  /** Delivery over every run in which the buffer was not cleared: in order, nothing twice and nothing that did
      not come; and, with room for each packet, everything but what is still in the buffer. */
  lemma Delivers(rs: seq<Receiver>, datas: seq<seq<Byte>>, rooms: seq<nat -> Room>)
    requires Rounds(rs, datas, rooms) && !rs[|datas|].cleared
    ensures var r := rs[|datas|];
            && Subsequence(r.handed, PacketsIn(Frames(r.given)))
            && ((forall i, j: nat | 0 <= i < |datas| :: rooms[i](j).Free?) ==>
                  PacketsIn(Frames(r.given)) == r.handed + PacketsIn(Frames(r.buf)))
  {
    hide Subsequence, PacketsIn, Frames, Leftover, Round;
    var r := rs[|datas|];
    TakesInOrder(rs, datas, rooms, |datas|);
    HandsOn(rs, datas, rooms, |datas|);
    NothingIsSubsequence(PacketsIn(Frames(r.buf)));
    SubsequenceAppend(r.handed, r.offered, [], PacketsIn(Frames(r.buf)));
    assert r.handed + [] == r.handed;
  }

  /** Sender to receiver: whatever the batch cuts, the control capsules, the pieces the wire comes in and the
      packets that find no room, once no whole frame is left in the receiver's buffer it has taken exactly the
      packets that left the sender's queue, in order, interleaved with what the control capsules carry, and
      handed on a subsequence of them: all of them when each found room. */
  lemma EndToEnd(actions: seq<Action>, rs: seq<Receiver>, datas: seq<seq<Byte>>, rooms: seq<nat -> Room>)
    requires MayRun(Sender([], [], []), actions) && Rounds(rs, datas, rooms)
    requires var s, r := RunSender(Sender([], [], []), actions), rs[|datas|];
             r.given == s.wire && OneFrame(r.buf).None? && !r.cleared
    requires forall p | p in Arrived(actions) :: WellHeaded(p)
    ensures var s, r := RunSender(Sender([], [], []), actions), rs[|datas|];
            && |s.queue| <= |Arrived(actions)|
            && Interleaves(r.offered, Arrived(actions)[..|Arrived(actions)| - |s.queue|], PacketsIn(Controls(actions)))
            && Subsequence(r.handed, r.offered)
            && ((forall i, j: nat | 0 <= i < |datas| :: rooms[i](j).Free?) ==> r.handed == r.offered)
  {
    assert |rs| == |datas| + 1;
    hide MayRun, RunSender, Rounds, Interleaves, Subsequence, Frames, PacketsIn, EncodeFrames, Arrived, Controls;
    var r := rs[|datas|];
    SentFrames(actions);
    TakesInOrder(rs, datas, rooms, |datas|);
    HandsOn(rs, datas, rooms, |datas|);
    NoFrames(r.buf);
    assert r.offered + [] == r.offered;
    var s := RunSender(Sender([], [], []), actions);
    var done := Arrived(actions)[..|Arrived(actions)| - |s.queue|];
    InterleavesPackets(s.sent, done, Controls(actions));
  }

  lemma SentFrames(actions: seq<Action>)
    requires MayRun(Sender([], [], []), actions)
    ensures var s := RunSender(Sender([], [], []), actions);
            Frames(s.wire) == s.sent && QueueHolds(s, Arrived(actions), Controls(actions))
  {
    hide MayRun, RunSender, Frames, EncodeFrames, QueueHolds, Arrived, Controls;
    var s0 := Sender([], [], []);
    assert Sending(s0, [], []) by { NothingSent(); }
    BatchingRefines(s0, actions, [], []);
    assert [] + Arrived(actions) == Arrived(actions) && [] + Controls(actions) == Controls(actions);
    var s := RunSender(s0, actions);
    FramesReadBack(s.sent, []);
    NoFrames([]);
    assert s.wire + [] == s.wire && s.sent + [] == s.sent;
  }

  lemma NoFrames(buf: seq<Byte>)
    requires OneFrame(buf).None?
    ensures Frames(buf) == [] && PacketsIn([]) == [] && Frames([]) == []
  {
  }

  lemma NothingSent()
    ensures Sending(Sender([], [], []), [], [])
  {
  }

  lemma {:induction false} InterleavesPackets(all: seq<Frame>, packets: seq<Packet>, controls: seq<Frame>)
    requires Interleaves(all, FramesOf(packets), controls) && forall p | p in packets :: WellHeaded(p)
    ensures Interleaves(PacketsIn(all), packets, PacketsIn(controls))
    decreases |all|
  {
    hide Strip;
    if all != [] {
      var init, last := all[..|all| - 1], all[|all| - 1];
      assert all == init + [last];
      PacketsInAppend(init, [last]);
      if packets != [] && last == FrameOf(packets[|packets| - 1])
         && Interleaves(init, FramesOf(packets)[..|packets| - 1], controls) {
        var p, before := packets[|packets| - 1], packets[..|packets| - 1];
        assert FramesOf(packets)[..|packets| - 1] == FramesOf(before);
        assert p in packets && forall q | q in before :: q in packets;
        InterleavesPackets(init, before, controls);
        WellHeadedStrips(p);
        OnePacket(p);
        InterleavesOne(PacketsIn(init), before, PacketsIn(controls), p);
        assert before + [p] == packets;
      } else {
        var before := controls[..|controls| - 1];
        assert controls == before + [last];
        InterleavesPackets(init, packets, before);
        PacketsInAppend(before, [last]);
        ControlPackets(PacketsIn(init), packets, PacketsIn(before), last);
      }
    }
  }

  lemma OnePacket(p: Packet)
    requires Strip(p) == Some(p)
    ensures PacketsIn([FrameOf(p)]) == [p]
  {
    hide Strip;
    assert [FrameOf(p)][1..] == [];
  }

  lemma ControlPackets(all: seq<Packet>, a: seq<Packet>, b: seq<Packet>, f: Frame)
    requires Interleaves(all, a, b)
    ensures Interleaves(all + PacketsIn([f]), a, b + PacketsIn([f]))
  {
    hide Strip;
    var out := PacketsIn([f]);
    assert [f][1..] == [] && PacketsIn([f][1..]) == [];
    if out == [] {
      assert all + out == all && b + out == b;
    } else {
      assert out == [out[0]];
      InterleavesOne(all, a, b, out[0]);
    }
  }

  // ---- What a server grants ----

  ghost function Granted(ms: seq<Message>): seq<AssignedAddress> {
    if ms == [] then [] else (if ms[0].Assign? then ms[0].addresses else []) + Granted(ms[1..])
  }

  /** A drain of the capsules a server wrote, with somebody to read the packets, takes them all and grants exactly
      the addresses the server assigned, in order. */
  lemma GrantsAsWritten(ms: seq<Message>, room: nat -> Room, k: nat)
    requires (forall m | m in ms :: Writable(m)) && forall i: nat :: !room(i).Gone?
    ensures var fs := Frames(Wires(ms));
            DrainCount(fs, room, k) == |ms| == |fs| && AddressesIn(fs) == Granted(ms)
  {
    hide *;
    MessagesRead(ms);
    GrantsSaid(ms, FramesFor(ms), room, k);
  }

  lemma {:induction false} GrantsSaid(ms: seq<Message>, fs: seq<Frame>, room: nat -> Room, k: nat)
    requires |fs| == |ms| && (forall i | 0 <= i < |ms| :: Meaning(fs[i]) == Ok(Said(ms[i])))
    requires forall i: nat :: !room(i).Gone?
    ensures DrainCount(fs, room, k) == |ms| && AddressesIn(fs) == Granted(ms)
    decreases |ms|
  {
    hide Meaning, PacketsIn, Said, AddressesOf;
    if ms != [] {
      GrantsSaid(ms[1..], fs[1..], room, k + |PacketsIn([fs[0]])|);
      GrantOne(ms[0], fs[0]);
    }
  }

  lemma GrantOne(m: Message, f: Frame)
    requires Meaning(f) == Ok(Said(m))
    ensures AddressesOf(f) == if m.Assign? then m.addresses else []
  {
    hide Meaning;
  }

  // ---- Which octets are a packet ----

  /** The context id zero, in each of its four lengths. */
  predicate ZeroContext(ctx: seq<Byte>) {
    ctx == [0] || ctx == [0x40, 0] || ctx == [0x80, 0, 0, 0] || ctx == [0xC0, 0, 0, 0, 0, 0, 0, 0]
  }

  /** Twenty octets or more that start as IPv4 or IPv6 does. */
  predicate IpStart(p: seq<Byte>) { |p| >= 20 && (0x40 <= p[0] <= 0x4F || 0x60 <= p[0] <= 0x6F) }

  ghost predicate Behind(payload: seq<Byte>, p: Packet) {
    IpStart(p) && exists ctx :: ZeroContext(ctx) && payload == ctx + p
  }

  lemma ZeroIff(s: seq<Byte>)
    requires GetVarint(s).Some?
    ensures var (v, n) := GetVarint(s).value; n <= |s| && (v == 0 <==> ZeroContext(s[..n]))
  {
    hide BigEndian;
    var n := LengthOf(s[0]);
    var t := s[..n];
    if n == 1 {
      assert t == [s[0]];
      One(s[0]);
    } else if n == 2 {
      assert t == [s[0], s[1]];
      Two(s[0], s[1]);
    } else if n == 4 {
      assert t == [s[0], s[1], s[2], s[3]];
      Four(s[0], s[1], s[2], s[3]);
    } else {
      var high := [s[0], s[1], s[2], s[3]];
      assert t == high + [s[4], s[5], s[6], s[7]];
      Four(s[0], s[1], s[2], s[3]);
      Eight(high, s[4], s[5], s[6], s[7]);
    }
  }

  /** A context of zero that starts a payload is the number read there. */
  lemma ContextRead(ctx: seq<Byte>, p: seq<Byte>)
    requires ZeroContext(ctx)
    ensures GetVarint(ctx + p) == Some((0, |ctx|)) && (ctx + p)[|ctx|..] == p
  {
    hide BigEndian, ZeroContext;
    var s := ctx + p;
    assert LengthOf(s[0]) == |ctx| && s[..|ctx|] == ctx by {
      ContextLength(ctx, p);
    }
    ZeroIff(s);
  }

  lemma ContextLength(ctx: seq<Byte>, p: seq<Byte>)
    requires ZeroContext(ctx)
    ensures ctx != [] && LengthOf((ctx + p)[0]) == |ctx| && (ctx + p)[..|ctx|] == ctx
  {
    assert (ctx + p)[0] == ctx[0];
  }

  /** A payload gives the packet `p` exactly when `p` starts as IP does, and the payload is `p` behind a context id
      of zero; or the payload is `p` itself and nothing that starts as IP does stands behind such a context. */
  lemma StripIff(payload: seq<Byte>, p: Packet)
    ensures Strip(payload) == Some(p) <==>
            Behind(payload, p) || (p == payload && IpStart(p) && forall q :: !Behind(payload, q))
  {
    hide GetVarint, ZeroContext;
    var ctx := GetVarint(payload);
    if ctx.Some? {
      ZeroIff(payload);
      var c, rest := payload[..ctx.value.1], payload[ctx.value.1..];
      assert payload == c + rest;
      assert ctx.value.0 == 0 && IpStart(rest) ==> Behind(payload, rest);
    }
    forall q | Behind(payload, q)
      ensures ctx.Some? && ctx.value.0 == 0 && q == payload[ctx.value.1..]
    {
      var c :| ZeroContext(c) && payload == c + q;
      ContextRead(c, q);
    }
  }
}
