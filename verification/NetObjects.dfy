/** The stack and its backlog as the loop runs them: objects whose fields the steps update. */
module NetObjects {
  import opened Bytes
  import opened Net
  import opened Admission

  datatype Received<T> = Got(item: T) | Empty | Disconnected

  /** A queue the loop takes from without waiting, and whether its senders are gone. */
  class Channel<T> {
    var items: seq<T>
    var closed: bool

    constructor (items: seq<T>)
      ensures this.items == items && !closed
    {
      this.items, closed := items, false;
    }

    method TryRecv() returns (r: Received<T>)
      modifies this`items
      ensures old(items) == [] ==> r == (if closed then Disconnected else Empty) && items == []
      ensures old(items) != [] ==> r == Got(old(items)[0]) && items == old(items)[1..]
    {
      if items == [] {
        return if closed then Disconnected else Empty;
      }
      r := Got(items[0]);
      items := items[1..];
    }
  }

  /** App data its flow could not take yet, in the order it came. */
  class Backlog {
    var queue: seq<DataIn>
    var blocked: set<nat>
    var bytes: nat

    /** `blocked` is exactly the flows with an entry, `bytes` exactly what the entries hold. */
    ghost predicate Valid()
      reads this
    {
      blocked == Ids(queue) && bytes == TotalSize(queue)
    }

    constructor ()
      ensures Valid() && queue == []
    {
      queue, blocked, bytes := [], {}, 0;
    }

    method Push(d: DataIn)
      requires Valid()
      modifies this
      ensures Valid() && queue == old(queue) + [d]
      ensures bytes == old(bytes) + if d.Tcp? || d.Udp? then |d.data| else 0
    {
      TotalAppend(queue, [d]);
      bytes := bytes + Size(d);
      blocked := blocked + {d.id};
      queue := queue + [d];
    }

    /** Drops every entry of flow `id`. */
    method Purge(id: nat)
      requires Valid()
      modifies this
      ensures Valid() && queue == Without(old(queue), {id})
    {
      var kept, total := [], 0;
      var i := 0;
      while i < |queue|
        invariant i <= |queue| && kept == Without(queue[..i], {id}) && total == TotalSize(kept)
        invariant queue == old(queue) && blocked == old(blocked)
      {
        WithoutAppend(queue[..i], [queue[i]], {id});
        assert queue[..i] + [queue[i]] == queue[..i + 1];
        if queue[i].id != id {
          TotalAppend(kept, [queue[i]]);
          kept := kept + [queue[i]];
          total := total + Size(queue[i]);
        }
        i := i + 1;
      }
      assert queue[..i] == queue;
      WithoutIds(queue, {id});
      queue, blocked, bytes := kept, blocked - {id}, total;
    }
  }

  lemma {:induction false} WithoutAppend(a: seq<DataIn>, b: seq<DataIn>, dead: set<nat>)
    ensures Without(a + b, dead) == Without(a, dead) + Without(b, dead)
  {
    if a == [] {
      assert a + b == b;
    } else {
      WithoutAppend(a[1..], b, dead);
      assert (a + b)[0] == a[0] && (a + b)[1..] == a[1..] + b;
      var head := if a[0].id in dead then [] else [a[0]];
      assert Without(a + b, dead) == head + Without(a[1..] + b, dead);
      assert head + (Without(a[1..], dead) + Without(b, dead)) == head + Without(a[1..], dead) + Without(b, dead);
    }
  }

  lemma {:induction false} WithoutIds(q: seq<DataIn>, dead: set<nat>)
    ensures Ids(Without(q, dead)) == Ids(q) - dead
  {
    if q != [] {
      WithoutIds(q[1..], dead);
      assert Ids(q) == {q[0].id} + Ids(q[1..]);
      var kept := if q[0].id in dead then [] else [q[0]];
      assert Ids(kept + Without(q[1..], dead)) == Ids(kept) + Ids(Without(q[1..], dead));
    }
  }

  lemma {:induction false} WithoutTwice(q: seq<DataIn>, a: set<nat>, b: set<nat>)
    ensures Without(Without(q, a), b) == Without(q, a + b)
  {
    if q != [] {
      WithoutTwice(q[1..], a, b);
      WithoutAppend(if q[0].id in a then [] else [q[0]], Without(q[1..], a), b);
    }
  }

  lemma {:induction false} WithoutNone(q: seq<DataIn>, dead: set<nat>)
    requires dead !! Ids(q)
    ensures Without(q, dead) == q
  {
    if q != [] {
      assert q[0].id in Ids(q) && Ids(q[1..]) <= Ids(q);
      WithoutNone(q[1..], dead);
    }
  }

  class NetStack {
    const maxPending: nat
    const txBuf: nat
    const connectFor: Time
    const orphanLinger: Time
    var nextId: nat
    var tcp: map<nat, Flow>
    var udp: map<nat, seq<Datagram>>

    constructor (maxPending: nat, txBuf: nat, connectFor: Time, orphanLinger: Time)
      requires maxPending > 0
      ensures nextId == 1 && Fresh(Value([]))
      ensures Value([]) == Net(maxPending, txBuf, connectFor, orphanLinger, 1, map[], map[], [])
    {
      this.maxPending, this.txBuf, this.connectFor, this.orphanLinger := maxPending, txBuf, connectFor, orphanLinger;
      nextId, tcp, udp := 1, map[], map[];
    }

    /** The state of the machine, with `queue` the backlog. */
    ghost function Value(queue: seq<DataIn>): Net
      reads this
    {
      Net(maxPending, txBuf, connectFor, orphanLinger, nextId, tcp, udp, queue)
    }

    /** One message to its flow; what comes back must wait. */
    method TryHandleData(d: DataIn) returns (back: Option<DataIn>)
      modifies this
      ensures forall q :: (Value(q), back) == Handle(old(Value(q)), d)
    {
      match d {
        case Tcp(id, data) =>
          if id in tcp {
            var st := tcp[id];
            if |st.pending| >= maxPending {
              return Some(d);
            }
            var space := maxPending - |st.pending|;
            if |data| <= space {
              tcp := tcp[id := st.(pending := st.pending + data)];
            } else {
              tcp := tcp[id := st.(pending := st.pending + data[..space])];
              return Some(Tcp(id, data[space..]));
            }
          }
        case TcpClose(id) =>
          if id in tcp {
            tcp := tcp[id := tcp[id].(halfClosed := true)];
          }
        case Udp(id, dst, data) =>
          if id in udp {
            udp := udp[id := udp[id] + [Datagram(dst, data)]];
          }
        case UdpClose(id) =>
          udp := udp - {id};
      }
      return None;
    }

    /** Places one message, behind its own flow's backlog when there is one. */
    method IngestOne(backlog: Backlog, d: DataIn)
      requires backlog.Valid()
      modifies this, backlog
      ensures backlog.Valid() && Value(backlog.queue) == IngestStep(old(Value(backlog.queue)), d)
    {
      if d.id in backlog.blocked {
        backlog.Push(d);
        return;
      }
      var back := TryHandleData(d);
      assert Value(backlog.queue) == Handle(old(Value(backlog.queue)), d).0;
      if back.Some? {
        backlog.Push(back.value);
      }
    }

    /** One pass over the backlog: a flow that refuses its head entry keeps the rest of its own. */
    method DrainBacklogOnce(backlog: Backlog)
      requires backlog.Valid()
      modifies this, backlog
      ensures backlog.Valid() && Value(backlog.queue) == DrainStep(old(Value(backlog.queue)))
    {
      if backlog.queue == [] {
        return;
      }
      hide Handle;
      ghost var start := Value([]);
      var kept: seq<DataIn>, blocked: set<nat>, bytes := [], {}, 0;
      while backlog.queue != []
        invariant blocked == Ids(kept) && bytes == TotalSize(kept)
        invariant DrainFrom(Value(kept), backlog.queue) == DrainFrom(start, old(backlog.queue))
        decreases |backlog.queue|
      {
        var d := backlog.queue[0];
        ghost var before := Value(kept);
        backlog.queue := backlog.queue[1..];
        if d.id in blocked {
          TotalAppend(kept, [d]);
          kept, bytes := kept + [d], bytes + Size(d);
          continue;
        }
        var back := TryHandleData(d);
        assert (Value(kept), back) == Handle(before, d);
        if back.Some? {
          HandleId(before, d);
          TotalAppend(kept, [back.value]);
          blocked, bytes, kept := blocked + {d.id}, bytes + Size(back.value), kept + [back.value];
        }
        assert Value(kept) == IngestStep(before, d);
      }
      backlog.queue, backlog.blocked, backlog.bytes := kept, blocked, bytes;
    }

    /** Takes app data from the channel while the budget and the backlog's bound allow. */
    method DrainAppData(backlog: Backlog, rx: Channel<DataIn>, budget: nat) returns (moved: nat, done: bool)
      requires backlog.Valid()
      modifies this, backlog, rx`items
      ensures backlog.Valid() && moved <= budget && moved <= |old(rx.items)| && rx.items == old(rx.items)[moved..]
      ensures Value(backlog.queue) == Run(old(Value(backlog.queue)), Ingests(old(rx.items)[..moved]))
      ensures backlog.bytes < 524_288 ==> moved == Least(budget, |old(rx.items)|)
      ensures done == (moved < budget && backlog.bytes < 524_288 && rx.closed)
      ensures forall largest | Within(old(backlog.bytes), old(rx.items), largest) ::
                Within(backlog.bytes, rx.items, largest)
    {
      hide IngestStep, Run;
      moved, done := 0, false;
      IngestsNothing(Value(backlog.queue), rx.items);
      while moved < budget && backlog.bytes < MAX_BACKLOG_BYTES
        invariant backlog.Valid() && moved <= budget && moved <= |old(rx.items)| && rx.items == old(rx.items)[moved..]
        invariant Value(backlog.queue) == Run(old(Value(backlog.queue)), Ingests(old(rx.items)[..moved]))
        invariant forall largest | Within(old(backlog.bytes), old(rx.items), largest) ::
                    Within(backlog.bytes, rx.items, largest)
      {
        ghost var before, bytes := Value(backlog.queue), backlog.bytes;
        var d := rx.TryRecv();
        if !d.Got? {
          return moved, d.Disconnected?;
        }
        IngestOne(backlog, d.item);
        IngestTotal(before, d.item);
        WithinOne(bytes, d.item, rx.items, backlog.bytes);
        IngestsNext(old(Value(backlog.queue)), old(rx.items), moved);
        moved := moved + 1;
      }
    }

    /** Pending octets into the socket. */
    method Link(flow: Flow, pass: Pass) returns (st: Flow)
      ensures st == Uplink(flow, pass)
    {
      st := flow;
      if st.pending == [] {
        st := st.(lastProgress := pass.now);
      } else if CanSend(st.socket) {
        var sent := if pass.room < |st.pending| then pass.room else |st.pending|;
        if sent > 0 {
          st := st.(lastProgress := pass.now, pending := st.pending[sent..],
                    socket := st.socket.(accepted := st.socket.accepted + st.pending[..sent]));
        }
      }
    }

    /** Whether the peer still acknowledges, and whether it has stopped too often. */
    method CheckDrain(flow: Flow, now: Time) returns (st: Flow, flap: bool)
      ensures st == DrainCheck(flow, now) && flap == Flaps(flow, now)
    {
      st, flap := flow, false;
      var queued, acked := Unacked(st.socket), st.socket.acked;
      if queued == 0 || acked > st.ackedHigh {
        st := st.(lastDrain := now, ackedHigh := acked, drainWarned := false);
      } else if !st.drainWarned && Elapsed(now, st.lastDrain) >= TCP_DRAIN_STALL_WARN {
        var count := if Elapsed(now, st.stallMark) >= STALL_FLAP_WINDOW then 0 else st.stallCount;
        st := st.(drainWarned := true, stallMark := now, stallCount := count + 1);
        flap := count + 1 >= STALL_FLAP_LIMIT && !st.carrier;
      }
      st := st.(queueHigh := queued);
    }

    /** The uplink, the drain check and the publication of one flow's credit. */
    method Measure(flow: Flow, pass: Pass) returns (st: Flow, flap: bool)
      ensures st == Measured(txBuf, flow, pass) && flap == Flaps(Uplink(flow, pass), pass.now)
    {
      hide Uplink, DrainCheck, Flaps;
      st := Link(flow, pass);
      st, flap := CheckDrain(st, pass.now);
      st := st.(credit := Publish(st.credit, st.socket.acked, Budget(txBuf, pass.wanted)));
    }

    /** One flow's turn in a service pass. */
    method ServiceFlow(id: nat, pass: Pass)
      modifies this`tcp
      ensures forall q :: Value(q) == ServiceStep(old(Value(q)), id, pass)
    {
      hide Measured, Flaps, Uplink;
      if id !in tcp {
        return;
      }
      var st := Polled(tcp[id], pass);
      if st.aborted {
        tcp := tcp - {id};
        return;
      }
      if st.socket.phase == Established || st.socket.phase == CloseWait {
        st := st.(established := true);
      }
      if !st.established {
        if st.socket.phase == Closed || st.socket.phase == TimeWait
           || pass.abandoned || pass.now >= st.connectDeadline {
          tcp := tcp - {id};
        } else {
          tcp := tcp[id := st];
        }
        return;
      }
      ghost var connected := st;
      var flap;
      st, flap := Measure(st, pass);
      if flap {
        st := ResetFlow(st).(stallCount := 0, drainWarned := false);
      }
      if st.halfClosed && st.pending == [] {
        st := st.(socket := AskClose(st.socket));
      }
      assert st == Settled(txBuf, connected, pass);
      var ended := EndFlow(st, pass);
      tcp := if ended.Some? then tcp[id := ended.value] else tcp - {id};
    }

    /** The end of a flow's turn: an app side that is gone, a peer that has closed. */
    method EndFlow(flow: Flow, pass: Pass) returns (r: Option<Flow>)
      ensures r == Ended(orphanLinger, flow, pass)
    {
      var st := flow;
      if pass.appGone {
        var since := if st.orphanedAt.Some? then st.orphanedAt.value else pass.now;
        st := st.(orphanedAt := Some(since));
        if pass.canRecv || Elapsed(pass.now, since) >= orphanLinger {
          if st.socket.phase != Closed {
            st := st.(socket := Abort(st.socket));
          }
          return Some(st.(aborted := true));
        }
        st := st.(socket := AskClose(st.socket));
      }
      var phase := st.socket.phase;
      if phase == CloseWait {
        st := st.(socket := AskClose(st.socket));
      }
      if phase == Closed || phase == TimeWait {
        return None;
      }
      return Some(st);
    }

    /** Resets flow `id` and drops what waits for it. */
    method ResetOne(backlog: Backlog, id: nat)
      requires backlog.Valid()
      modifies this`tcp, backlog
      ensures backlog.Valid() && backlog.queue == Without(old(backlog.queue), {id})
      ensures tcp == ResetAll(old(tcp), {id})
    {
      if id in tcp {
        tcp := tcp[id := ResetFlow(tcp[id])];
      }
      backlog.Purge(id);
    }

    /** Resets every flow of `dead`, in whatever order. */
    method ResetEach(backlog: Backlog, dead: set<nat>)
      requires backlog.Valid()
      modifies this`tcp, backlog
      ensures backlog.Valid() && backlog.queue == Without(old(backlog.queue), dead)
      ensures tcp == ResetAll(old(tcp), dead)
    {
      hide ResetFlow;
      WithoutNone(backlog.queue, {});
      var left := dead;
      assert dead - left == {};
      while left != {}
        invariant left <= dead && backlog.Valid()
        invariant backlog.queue == Without(old(backlog.queue), dead - left)
        invariant tcp == ResetAll(old(tcp), dead - left)
        decreases left
      {
        var id :| id in left;
        ghost var done := dead - left;
        ResetOne(backlog, id);
        left := left - {id};
        WithoutTwice(old(backlog.queue), done, {id});
        assert done + {id} == dead - left;
      }
      assert dead - left == dead;
    }

    /** Resets the flows whose peer acknowledges nothing, then those that take nothing. */
    method ReapWedged(backlog: Backlog, now: Time)
      requires backlog.Valid()
      modifies this`tcp, backlog
      ensures backlog.Valid() && Value(backlog.queue) == ReapStep(old(Value(backlog.queue)), now)
    {
      ghost var before := Value(backlog.queue);
      var stalled := set id | id in tcp && Stalled(tcp[id], now);
      ResetEach(backlog, stalled);
      WithoutIds(before.backlog, stalled);
      var wedged := set id | id in backlog.blocked && (id !in tcp || Wedged(tcp[id], now));
      ResetEach(backlog, wedged);
      ReapRounds(before, now, stalled, wedged);
    }
  }

  /** The reaper's two rounds are one: a flow the first round resets has nothing left in the backlog
      for the second to find. */
  lemma ReapRounds(n: Net, now: Time, stalled: set<nat>, wedged: set<nat>)
    requires stalled == set id | id in n.tcp && Stalled(n.tcp[id], now)
    requires var tcp := ResetAll(n.tcp, stalled);
             wedged == set id | id in Ids(n.backlog) - stalled && (id !in tcp || Wedged(tcp[id], now))
    ensures Without(Without(n.backlog, stalled), wedged) == ReapStep(n, now).backlog
    ensures ResetAll(ResetAll(n.tcp, stalled), wedged) == ReapStep(n, now).tcp
  {
    hide ResetFlow, Stalled, Wedged, Without, Ids;
    WithoutTwice(n.backlog, stalled, wedged);
    assert stalled + wedged == DeadIds(n, now);
    assert stalled !! wedged;
  }

  lemma HandleId(n: Net, d: DataIn)
    ensures Handle(n, d).1.Some? ==> Handle(n, d).1.value.id == d.id
  {
  }

  /** `tcp` with the flows of `dead` reset. */
  function ResetAll(tcp: map<nat, Flow>, dead: set<nat>): map<nat, Flow> {
    map id | id in tcp :: if id in dead then ResetFlow(tcp[id]) else tcp[id]
  }

  /** Every message of `items` has at most `largest` octets, and `bytes` is below the backlog's bound plus one
      message. */
  ghost predicate Within(bytes: nat, items: seq<DataIn>, largest: nat) {
    Small(items, largest) && bytes < MAX_BACKLOG_BYTES + largest
  }

  lemma WithinOne(bytes: nat, d: DataIn, rest: seq<DataIn>, after: nat)
    requires bytes < MAX_BACKLOG_BYTES && after <= bytes + Size(d)
    ensures forall largest | Within(bytes, [d] + rest, largest) :: Within(after, rest, largest)
  {
    forall largest | Within(bytes, [d] + rest, largest)
      ensures Within(after, rest, largest)
    {
      assert d in [d] + rest && forall e | e in rest :: e in [d] + rest;
    }
  }

  lemma IngestsNothing(n: Net, ds: seq<DataIn>)
    ensures Run(n, Ingests(ds[..0])) == n
  {
  }

  lemma IngestsNext(n: Net, ds: seq<DataIn>, i: nat)
    requires i < |ds|
    ensures Run(n, Ingests(ds[..i + 1])) == IngestStep(Run(n, Ingests(ds[..i])), ds[i])
  {
    hide IngestStep;
    var all := Ingests(ds[..i + 1]);
    assert all[..i] == Ingests(ds[..i]) && all[i] == Ingest(ds[i]);
  }

  function Ingests(ds: seq<DataIn>): seq<Event> { seq(|ds|, i requires 0 <= i < |ds| => Ingest(ds[i])) }
}
