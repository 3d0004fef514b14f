/** The order in which a name's addresses are tried and the race between the attempts (sections 4 and 5
    of RFC 8305). */
module Racing {
  import opened Bytes

  datatype Address = Address(v4: bool, host: seq<Byte>, port: nat)

  // ---- The order ----

  /** The addresses of one family, in their order. */
  function Family(addresses: seq<Address>, v4: bool): seq<Address> {
    if addresses == [] then []
    else (if addresses[0].v4 == v4 then [addresses[0]] else []) + Family(addresses[1..], v4)
  }

  /** One of each by turns until one runs out, then the rest of the other. */
  function Weave(lead: seq<Address>, other: seq<Address>): seq<Address>
    decreases |lead| + |other|
  {
    if lead == [] then other
    else if other == [] then lead
    else [lead[0], other[0]] + Weave(lead[1..], other[1..])
  }

  method Interleaved(addresses: seq<Address>) returns (order: seq<Address>)
    ensures addresses == [] ==> order == []
    ensures addresses != [] ==>
              var v4 := addresses[0].v4; order == Weave(Family(addresses, v4), Family(addresses, !v4))
  {
    order := [];
    if addresses == [] {
      return;
    }
    hide Family;
    var v4 := addresses[0].v4;
    var lead, other := Family(addresses, v4), Family(addresses, !v4);
    while lead != [] || other != []
      invariant order + Weave(lead, other) == Weave(Family(addresses, v4), Family(addresses, !v4))
      decreases |lead| + |other|
    {
      WeaveOnce(order, lead, other);
      ghost var start, first, second := order, lead, other;
      if lead != [] {
        order := order + [lead[0]];
        lead := lead[1..];
      }
      if other != [] {
        order := order + [other[0]];
        other := other[1..];
      }
      assert order == start + ((if first == [] then [] else [first[0]]) + (if second == [] then [] else [second[0]]));
    }
  }

  lemma WeaveOnce(order: seq<Address>, lead: seq<Address>, other: seq<Address>)
    requires lead != [] || other != []
    ensures var heads := (if lead == [] then [] else [lead[0]]) + (if other == [] then [] else [other[0]]);
            var tail := Weave(if lead == [] then [] else lead[1..], if other == [] then [] else other[1..]);
            order + heads + tail == order + Weave(lead, other)
  {
    var heads := (if lead == [] then [] else [lead[0]]) + (if other == [] then [] else [other[0]]);
    var tail := Weave(if lead == [] then [] else lead[1..], if other == [] then [] else other[1..]);
    assert heads + tail == Weave(lead, other);
  }

  /** All of one family. */
  predicate Pure(addresses: seq<Address>, v4: bool) { forall a | a in addresses :: a.v4 == v4 }

  lemma {:induction false} FamilyPure(addresses: seq<Address>, v4: bool)
    ensures Pure(Family(addresses, v4), v4)
    ensures Pure(addresses, v4) ==> Family(addresses, v4) == addresses && Family(addresses, !v4) == []
  {
    if addresses != [] {
      assert addresses[0] in addresses && forall a | a in addresses[1..] :: a in addresses;
      FamilyPure(addresses[1..], v4);
    }
  }

  lemma {:induction false} FamiliesAreAll(addresses: seq<Address>, v4: bool)
    ensures multiset(Family(addresses, v4)) + multiset(Family(addresses, !v4)) == multiset(addresses)
  {
    if addresses != [] {
      FamiliesAreAll(addresses[1..], v4);
      assert addresses == [addresses[0]] + addresses[1..];
    }
  }

  lemma {:induction false} WeaveIsAll(lead: seq<Address>, other: seq<Address>)
    ensures multiset(Weave(lead, other)) == multiset(lead) + multiset(other)
    decreases |lead|
  {
    if lead != [] && other != [] {
      WeaveIsAll(lead[1..], other[1..]);
      HeadOut(lead);
      HeadOut(other);
      PairOut(lead[0], other[0], Weave(lead[1..], other[1..]));
    }
  }

  lemma HeadOut(s: seq<Address>)
    requires s != []
    ensures multiset(s) == multiset{s[0]} + multiset(s[1..])
  {
    assert s == [s[0]] + s[1..];
  }

  lemma PairOut(x: Address, y: Address, rest: seq<Address>)
    ensures multiset([x, y] + rest) == multiset{x, y} + multiset(rest)
  {
  }

  lemma FamilyOfPair(x: Address, y: Address, rest: seq<Address>)
    requires x.v4 != y.v4
    ensures Family([x, y] + rest, x.v4) == [x] + Family(rest, x.v4)
    ensures Family([x, y] + rest, !x.v4) == [y] + Family(rest, !x.v4)
  {
    assert ([x, y] + rest)[1..] == [y] + rest && ([y] + rest)[1..] == rest;
  }

  lemma {:induction false} WeaveKeeps(lead: seq<Address>, other: seq<Address>, v4: bool)
    requires Pure(lead, v4) && Pure(other, !v4)
    ensures Family(Weave(lead, other), v4) == lead && Family(Weave(lead, other), !v4) == other
    decreases |lead|
  {
    hide Family;
    FamilyPure(lead, v4);
    FamilyPure(other, !v4);
    if lead != [] && other != [] {
      assert lead[0] in lead && other[0] in other;
      assert forall a | a in lead[1..] :: a in lead;
      assert forall a | a in other[1..] :: a in other;
      WeaveKeeps(lead[1..], other[1..], v4);
      FamilyOfPair(lead[0], other[0], Weave(lead[1..], other[1..]));
      assert lead == [lead[0]] + lead[1..] && other == [other[0]] + other[1..];
    }
  }

  lemma {:induction false} WeaveLength(lead: seq<Address>, other: seq<Address>)
    ensures |Weave(lead, other)| == |lead| + |other|
    decreases |lead|
  {
    if lead != [] && other != [] {
      WeaveLength(lead[1..], other[1..]);
    }
  }

  /** Where each address stands: the families take turns, the first one's first, while both last, and
      the longer one's rest follows. */
  lemma {:induction false} WeaveAlternates(lead: seq<Address>, other: seq<Address>, k: nat)
    requires k < |lead| + |other|
    ensures |Weave(lead, other)| == |lead| + |other|
    ensures Weave(lead, other)[k] ==
            if k < 2 * |lead| && k < 2 * |other| then (if k % 2 == 0 then lead[k / 2] else other[k / 2])
            else if |lead| > |other| then lead[k - |other|]
            else other[k - |lead|]
    decreases |lead|
  {
    WeaveLength(lead, other);
    if lead != [] && other != [] {
      var pair, rest := [lead[0], other[0]], Weave(lead[1..], other[1..]);
      if k >= 2 {
        WeaveAlternates(lead[1..], other[1..], k - 2);
        assert (pair + rest)[k] == rest[k - 2];
      }
    }
  }

  lemma FirstLeads(addresses: seq<Address>)
    requires addresses != []
    ensures var v4 := addresses[0].v4;
            var order := Weave(Family(addresses, v4), Family(addresses, !v4)); order != [] && order[0] == addresses[0]
  {
    var v4 := addresses[0].v4;
    assert Family(addresses, v4)[0] == addresses[0];
    WeaveAlternates(Family(addresses, v4), Family(addresses, !v4), 0);
  }

  /** The order is a permutation that starts with the first address and keeps each family in its own
      order. */
  lemma OrderKeepsFamilies(addresses: seq<Address>)
    requires addresses != []
    ensures var v4 := addresses[0].v4;
            var order := Weave(Family(addresses, v4), Family(addresses, !v4));
            && multiset(order) == multiset(addresses) && order != [] && order[0] == addresses[0]
            && Family(order, v4) == Family(addresses, v4) && Family(order, !v4) == Family(addresses, !v4)
  {
    hide Family, Weave;
    var v4 := addresses[0].v4;
    FamilyPure(addresses, v4);
    FamilyPure(addresses, !v4);
    FamiliesAreAll(addresses, v4);
    WeaveIsAll(Family(addresses, v4), Family(addresses, !v4));
    WeaveKeeps(Family(addresses, v4), Family(addresses, !v4), v4);
    FirstLeads(addresses);
  }

  // ---- The race ----

  /** What happens next: attempt `i` connects or fails, or the delay runs out. */
  datatype Happening = Connects(i: nat) | Fails(i: nat, error: nat) | Delay

  datatype End = Won(i: nat) | Lost(error: Option<nat>)

  /** A race over `count` addresses: how many attempts were started, which are in flight, the last error. */
  datatype Race = Race(count: nat, started: nat, inFlight: set<nat>, lastError: Option<nat>, end: Option<End>)

  /** The next attempt beside those in flight, when an address waits. */
  function StartNext(r: Race): Race {
    if r.started < r.count then r.(started := r.started + 1, inFlight := r.inFlight + {r.started}) else r
  }

  /** The head of the loop: with nothing in flight, the next attempt or the end. */
  function Head(r: Race): Race {
    if r.end.Some? || r.inFlight != {} then r
    else if r.started < r.count then StartNext(r)
    else r.(end := Some(Lost(r.lastError)))
  }

  function Happen(r: Race, h: Happening): Race {
    match h
    case Connects(i) => r.(end := Some(Won(i)))
    case Fails(i, error) => Head(StartNext(r.(inFlight := r.inFlight - {i}, lastError := Some(error))))
    case Delay => StartNext(r)
  }

  function Run(count: nat, hs: seq<Happening>): Race
    decreases |hs|
  {
    if hs == [] then Head(Race(count, 0, {}, None, None))
    else
      var r := Run(count, hs[..|hs| - 1]);
      if r.end.Some? then r else Happen(r, hs[|hs| - 1])
  }

  /** Only an attempt in flight connects or fails. */
  ghost predicate Possible(count: nat, hs: seq<Happening>)
    decreases |hs|
  {
    hs == [] ||
    (Possible(count, hs[..|hs| - 1]) &&
     var r, last := Run(count, hs[..|hs| - 1]), hs[|hs| - 1];
     r.end.None? && (last.Connects? || last.Fails? ==> last.i in r.inFlight))
  }

  /** The race as a loop over what happens. */
  method RunRace(count: nat, hs: seq<Happening>) returns (started: nat, inFlight: set<nat>, end: Option<End>)
    ensures var r := Run(count, hs); started == r.started && inFlight == r.inFlight && end == r.end
  {
    var lastError := None;
    started, inFlight, end := 0, {}, None;
    var k := 0;
    while true
      invariant k <= |hs| && end.None?
      invariant Head(Race(count, started, inFlight, lastError, end)) == Run(count, hs[..k])
      decreases |hs| - k
    {
      if inFlight == {} {
        if started < count {
          inFlight := {started};
          started := started + 1;
        } else {
          end := Some(Lost(lastError));
        }
      }
      assert Run(count, hs[..k]) == Race(count, started, inFlight, lastError, end);
      if k == |hs| || end.Some? {
        assert hs[..|hs|] == hs;
        Over(count, hs, k);
        return;
      }
      assert hs[..k + 1][..k] == hs[..k];
      match hs[k] {
        case Connects(i) =>
          end := Some(Won(i));
          Over(count, hs, k + 1);
          return;
        case Fails(i, error) =>
          lastError := Some(error);
          inFlight := inFlight - {i};
          if started < count {
            inFlight := inFlight + {started};
            started := started + 1;
          }
        case Delay =>
          if started < count {
            inFlight := inFlight + {started};
            started := started + 1;
          }
      }
      k := k + 1;
    }
  }

  /** What happens after the end changes nothing. */
  lemma {:induction false} Over(count: nat, hs: seq<Happening>, k: nat)
    requires k <= |hs| && (k == |hs| || Run(count, hs[..k]).end.Some?)
    ensures Run(count, hs) == Run(count, hs[..k])
    decreases |hs|
  {
    if k == |hs| {
      assert hs[..k] == hs;
    } else {
      var init := hs[..|hs| - 1];
      assert init[..k] == hs[..k];
      Over(count, init, k);
    }
  }

  /** The attempts that have failed. */
  function Failed(hs: seq<Happening>): set<nat> {
    if hs == [] then {}
    else
      var last := hs[|hs| - 1];
      Failed(hs[..|hs| - 1]) + if last.Fails? then {last.i} else {}
  }

  function LastFailure(hs: seq<Happening>): Option<nat> {
    if hs == [] then None
    else
      var last := hs[|hs| - 1];
      if last.Fails? then Some(last.error) else LastFailure(hs[..|hs| - 1])
  }

  ghost predicate Sound(r: Race, hs: seq<Happening>) {
    && r.started <= r.count && (r.end.None? || r.end.value.Lost? ==> r.lastError == LastFailure(hs))
    && (forall i | i in r.inFlight :: i < r.started && i !in Failed(hs))
    && (r.end.None? || r.end.value.Lost? ==> forall i | 0 <= i < r.started :: i in r.inFlight || i in Failed(hs))
    && (r.end.None? ==> r.inFlight != {} && (r.started == r.count || r.started == |hs| + 1))
    && (r.end.Some? && r.end.value.Won? ==> r.end.value.i in r.inFlight)
    && (r.end.Some? && r.end.value.Lost? ==>
          r.inFlight == {} && r.started == r.count && r.end.value.error == LastFailure(hs))
  }

  /** Over every course of events: the attempts started are a prefix of the list, one more with each
      event until all are, each once; until the end one is always in flight; and a race is lost only when
      every address has failed, with the error of the last to fail. */
  lemma {:induction false} RaceSound(count: nat, hs: seq<Happening>)
    requires Possible(count, hs)
    ensures Run(count, hs).count == count && Sound(Run(count, hs), hs)
    ensures forall i | i in Failed(hs) :: i < Run(count, hs).started
    decreases |hs|
  {
    if hs != [] {
      var init, last := hs[..|hs| - 1], hs[|hs| - 1];
      RaceSound(count, init);
      HappenSound(Run(count, init), init, last, hs);
    }
  }

  lemma HappenSound(r: Race, init: seq<Happening>, last: Happening, hs: seq<Happening>)
    requires Sound(r, init) && r.end.None? && hs == init + [last]
    requires last.Connects? || last.Fails? ==> last.i in r.inFlight
    requires forall i | i in Failed(init) :: i < r.started
    ensures Sound(Happen(r, last), hs) && Happen(r, last).count == r.count
    ensures forall i | i in Failed(hs) :: i < Happen(r, last).started
  {
    assert hs[..|hs| - 1] == init;
    assert Failed(hs) == Failed(init) + if last.Fails? then {last.i} else {};
    assert LastFailure(hs) == if last.Fails? then Some(last.error) else LastFailure(init);
  }

  /** A race is won exactly by the attempt that connects, at once. */
  lemma WonBy(count: nat, hs: seq<Happening>, i: nat)
    requires Possible(count, hs)
    ensures Run(count, hs).end == Some(Won(i)) <==> hs != [] && hs[|hs| - 1] == Connects(i)
  {
    if hs != [] {
      RaceSound(count, hs[..|hs| - 1]);
    }
  }
}
