/** UDP through the stack: what reaches a flow's socket. */
module Datagrams {
  import opened Bytes
  import opened Net
  import opened Isolation
  import opened Conservation

  /** The datagrams that a run hands in for `j`, in order. */
  function HandedIn(events: seq<Event>, j: nat): seq<Datagram>
    decreases |events|
  {
    if events == [] then []
    else
      var e := events[|events| - 1];
      HandedIn(events[..|events| - 1], j)
      + if e.Ingest? && e.d.Udp? && e.d.id == j then [Datagram(e.d.dst, e.d.data)] else []
  }

  /** No UDP flow is a TCP flow or waits in the backlog. */
  ghost predicate Straight(n: Net) {
    forall j | j in n.udp :: j < n.nextId && j !in n.tcp && forall d | d in n.backlog :: d.id != j
  }

  lemma IngestStraight(n: Net, d: DataIn)
    requires Straight(n) && Issued(n) && d.id < n.nextId
    ensures Straight(IngestStep(n, d))
    ensures d.id !in n.udp ==> IngestStep(n, d).udp == n.udp
    ensures d.id in n.udp ==>
              IngestStep(n, d).udp ==
              match d
              case Udp(id, dst, data) => n.udp[id := n.udp[id] + [Datagram(dst, data)]]
              case UdpClose(id) => n.udp - {id}
              case _ => n.udp
  {
    HandleBack(n, d);
    assert d.id in n.udp ==> d.id !in Ids(n.backlog);
  }

  lemma HandleBack(n: Net, d: DataIn)
    ensures Handle(n, d).1.Some? ==> Handle(n, d).1.value.id == d.id && d.id in n.tcp
    ensures Handle(n, d).0.nextId == n.nextId && Handle(n, d).0.tcp.Keys == n.tcp.Keys
  {
  }

  lemma {:induction false} DrainStraight(n: Net, queue: seq<DataIn>)
    requires Straight(n) && Issued(n) && forall d | d in queue :: d.id < n.nextId && d.id !in n.udp
    ensures Straight(DrainFrom(n, queue)) && DrainFrom(n, queue).udp == n.udp
    decreases |queue|
  {
    hide IngestStep;
    if queue != [] {
      assert queue[0] in queue && forall d | d in queue[1..] :: d in queue;
      IngestStraight(n, queue[0]);
      IssuedIngest(n, queue[0]);
      DrainStraight(IngestStep(n, queue[0]), queue[1..]);
    }
  }

  lemma StepStraight(n: Net, e: Event, j: nat)
    requires Straight(n) && Issued(n) && Lawful(n, e)
    ensures Straight(Step(n, e))
    ensures j in Step(n, e).udp && j in n.udp ==>
              Step(n, e).udp[j] ==
              n.udp[j] + if e.Ingest? && e.d.Udp? && e.d.id == j then [Datagram(e.d.dst, e.d.data)] else []
    ensures j in Step(n, e).udp && j !in n.udp ==> e.OpenUdp? && j == n.nextId && Step(n, e).udp[j] == []
  {
    hide Serviced, IngestStep, DrainFrom;
    match e
    case Ingest(d) => IngestStraight(n, d);
    case DrainBacklog => DrainStraight(n.(backlog := []), n.backlog);
    case Reap(now) =>
      forall d | d in Without(n.backlog, DeadIds(n, now))
        ensures d in n.backlog
      {
        WithoutIn(n.backlog, DeadIds(n, now), d);
      }
    case _ =>
  }

  lemma {:induction false} NoneYet(n: Net, events: seq<Event>, j: nat)
    requires LawfulRun(n, events) && j >= Run(n, events).nextId
    ensures HandedIn(events, j) == []
    decreases |events|
  {
    hide Step;
    if events != [] {
      var init, last := events[..|events| - 1], events[|events| - 1];
      IdsGrow(Run(n, init), last);
      NoneYet(n, init, j);
    }
  }

  /** Over every run a UDP flow's socket is handed exactly the datagrams handed in for it, in order, whatever any
      other flow has waiting. */
  lemma {:induction false} DatagramsConserved(n: Net, events: seq<Event>, j: nat)
    requires Fresh(n) && LawfulRun(n, events)
    ensures Straight(Run(n, events))
    ensures j in Run(n, events).udp ==> Run(n, events).udp[j] == HandedIn(events, j)
    decreases |events|
  {
    hide Step;
    if events != [] {
      var init, last := events[..|events| - 1], events[|events| - 1];
      DatagramsConserved(n, init, j);
      StreamConserved(n, init, j);
      StepStraight(Run(n, init), last, j);
      if j >= Run(n, init).nextId {
        NoneYet(n, init, j);
      }
    }
  }
}
