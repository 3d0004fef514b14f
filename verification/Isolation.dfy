/** One flow's view of the stack: nothing another flow does, or has done to it, reaches it. */
module Isolation {
  import opened Bytes
  import opened Net

  /** The entries of flow `j`. */
  function Only(q: seq<DataIn>, j: nat): seq<DataIn> {
    if q == [] then [] else (if q[0].id == j then [q[0]] else []) + Only(q[1..], j)
  }

  lemma {:induction false} OnlyAppend(a: seq<DataIn>, b: seq<DataIn>, j: nat)
    ensures Only(a + b, j) == Only(a, j) + Only(b, j)
  {
    if a == [] {
      assert a + b == b;
    } else {
      OnlyAppend(a[1..], b, j);
      assert (a + b)[1..] == a[1..] + b;
      var head := if a[0].id == j then [a[0]] else [];
      assert head + (Only(a[1..], j) + Only(b, j)) == head + Only(a[1..], j) + Only(b, j);
    }
  }

  lemma {:induction false} OnlyIds(q: seq<DataIn>, j: nat)
    ensures j in Ids(q) <==> Only(q, j) != []
  {
    if q != [] {
      OnlyIds(q[1..], j);
      assert Ids(q) == {q[0].id} + Ids(q[1..]);
    }
  }

  lemma {:induction false} OnlyWithout(q: seq<DataIn>, dead: set<nat>, j: nat)
    ensures Only(Without(q, dead), j) == if j in dead then [] else Only(q, j)
  {
    if q != [] {
      var kept := if q[0].id in dead then [] else [q[0]];
      OnlyAppend(kept, Without(q[1..], dead), j);
      OnlyWithout(q[1..], dead, j);
      assert kept != [] ==> Only(kept, j) == if q[0].id == j then [q[0]] else [];
    }
  }

  function Lookup<T>(m: map<nat, T>, j: nat): Option<T> { if j in m then Some(m[j]) else None }

  /** Whether `a` and `b` are one and the same to flow `j`. */
  ghost predicate Agree(a: Net, b: Net, j: nat) {
    && a.maxPending == b.maxPending && a.txBuf == b.txBuf && a.connectFor == b.connectFor
    && a.orphanLinger == b.orphanLinger && a.nextId == b.nextId
    && Lookup(a.tcp, j) == Lookup(b.tcp, j) && Lookup(a.udp, j) == Lookup(b.udp, j)
    && Only(a.backlog, j) == Only(b.backlog, j)
  }

  /** A message of another flow changes nothing for `j`. */
  lemma IngestOther(n: Net, d: DataIn, j: nat)
    requires d.id != j
    ensures Agree(IngestStep(n, d), n, j)
  {
    hide Handle, Only, Ids, Lookup;
    HandleOther(n, d, j);
    OnlyAppend(n.backlog, [d], j);
    OnlyOther([d], j);
    OnlyAppend(n.backlog, Waiting(Handle(n, d).1), j);
    OnlyOther(Waiting(Handle(n, d).1), j);
  }

  lemma HandleOther(n: Net, d: DataIn, j: nat)
    requires d.id != j
    ensures Agree(Handle(n, d).0, n, j) && forall e | e in Waiting(Handle(n, d).1) :: e.id != j
  {
    hide Only;
  }

  lemma OnlyOther(q: seq<DataIn>, j: nat)
    requires |q| <= 1 && forall d | d in q :: d.id != j
    ensures forall p: seq<DataIn> :: p + Only(q, j) == p
  {
    assert q != [] ==> q[0] in q && q[1..] == [];
  }

  lemma HandleSame(a: Net, b: Net, d: DataIn, j: nat)
    requires Agree(a, b, j) && d.id == j
    ensures Handle(a, d).1 == Handle(b, d).1 && Agree(Handle(a, d).0, Handle(b, d).0, j)
  {
    hide Only;
  }

  lemma IngestSame(a: Net, b: Net, d: DataIn, j: nat)
    requires Agree(a, b, j) && d.id == j
    ensures Agree(IngestStep(a, d), IngestStep(b, d), j)
  {
    hide Handle, Ids;
    HandleSame(a, b, d, j);
    OnlyIds(a.backlog, j);
    OnlyIds(b.backlog, j);
    OnlyAppend(a.backlog, [d], j);
    OnlyAppend(b.backlog, [d], j);
    OnlyAppend(a.backlog, Waiting(Handle(a, d).1), j);
    OnlyAppend(b.backlog, Waiting(Handle(b, d).1), j);
  }

  lemma {:induction false} DrainAgree(a: Net, p: seq<DataIn>, b: Net, q: seq<DataIn>, j: nat)
    requires Agree(a, b, j) && Only(p, j) == Only(q, j)
    ensures Agree(DrainFrom(a, p), DrainFrom(b, q), j)
    decreases |p| + |q|
  {
    hide IngestStep;
    if p != [] && p[0].id != j {
      IngestOther(a, p[0], j);
      DrainAgree(IngestStep(a, p[0]), p[1..], b, q, j);
    } else if q != [] && q[0].id != j {
      IngestOther(b, q[0], j);
      DrainAgree(a, p, IngestStep(b, q[0]), q[1..], j);
    } else if p != [] && q != [] {
      OnlyHead(p, j);
      OnlyHead(q, j);
      IngestSame(a, b, p[0], j);
      DrainAgree(IngestStep(a, p[0]), p[1..], IngestStep(b, q[0]), q[1..], j);
    }
  }

  lemma OnlyHead(q: seq<DataIn>, j: nat)
    requires q != [] && q[0].id == j
    ensures Only(q, j)[0] == q[0] && Only(q, j)[1..] == Only(q[1..], j)
  {
  }

  lemma ReapAgree(a: Net, b: Net, now: Time, j: nat)
    requires Agree(a, b, j)
    ensures Agree(ReapStep(a, now), ReapStep(b, now), j)
  {
    OnlyIds(a.backlog, j);
    OnlyIds(b.backlog, j);
    OnlyWithout(a.backlog, DeadIds(a, now), j);
    OnlyWithout(b.backlog, DeadIds(b, now), j);
    assert j in DeadIds(a, now) <==> j in DeadIds(b, now);
  }

  /** Whether `e` is an event of flow `i` alone. */
  predicate Concerns(e: Event, i: nat) {
    (e.Admit? && e.id == i) || (e.Ingest? && e.d.id == i) || (e.Service? && e.id == i)
  }

  lemma StepAgree(a: Net, b: Net, e: Event, j: nat)
    requires Agree(a, b, j)
    ensures Agree(Step(a, e), Step(b, e), j)
  {
    match e
    case Ingest(d) =>
      if d.id == j {
        IngestSame(a, b, d, j);
      } else {
        IngestOther(a, d, j);
        IngestOther(b, d, j);
      }
    case DrainBacklog => DrainAgree(a.(backlog := []), a.backlog, b.(backlog := []), b.backlog, j);
    case Reap(now) => ReapAgree(a, b, now, j);
    case Service(id, pass) => ServiceAgree(a, b, id, pass, j);
    case _ =>
  }

  lemma ServiceAgree(a: Net, b: Net, id: nat, pass: Pass, j: nat)
    requires Agree(a, b, j)
    ensures Agree(ServiceStep(a, id, pass), ServiceStep(b, id, pass), j)
    ensures id != j ==> Agree(ServiceStep(a, id, pass), a, j)
  {
    hide Serviced;
  }

  lemma StepOther(n: Net, e: Event, i: nat, j: nat)
    requires Concerns(e, i) && i != j
    ensures Agree(Step(n, e), n, j)
  {
    match e
    case Ingest(d) => IngestOther(n, d, j);
    case Service(id, pass) => ServiceAgree(n, n, id, pass, j);
    case _ =>
  }

  /** `events` without those of flow `i`. */
  function Erase(events: seq<Event>, i: nat): seq<Event>
    decreases |events|
  {
    if events == [] then []
    else
      var last := events[|events| - 1];
      Erase(events[..|events| - 1], i) + if Concerns(last, i) then [] else [last]
  }

  /** Non-interference: over every run, whatever flow `i` sends, is admitted or is served leaves
      every other flow's state and backlog exactly as if `i` had been silent. */
  lemma {:induction false} NonInterference(n: Net, events: seq<Event>, i: nat, j: nat)
    requires i != j
    ensures Agree(Run(n, events), Run(n, Erase(events, i)), j)
    decreases |events|
  {
    hide Step;
    if events != [] {
      var init, last := events[..|events| - 1], events[|events| - 1];
      NonInterference(n, init, i, j);
      if Concerns(last, i) {
        StepOther(Run(n, init), last, i, j);
        assert Erase(events, i) == Erase(init, i);
      } else {
        StepAgree(Run(n, init), Run(n, Erase(init, i)), last, j);
        var erased := Erase(events, i);
        assert erased[..|erased| - 1] == Erase(init, i);
      }
    }
  }
}
