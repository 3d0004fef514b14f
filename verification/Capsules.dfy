/** Capsules on a byte stream (section 3.2 of RFC 9297), the ones that assign addresses and advertise
    routes (sections 4.7.1 and 4.7.3 of RFC 9484), and the parser that takes them as they come. */
module Capsules {
  import opened Bytes
  import opened Varint

  const CAPSULE_DATAGRAM := 0x00
  const CAPSULE_ADDRESS_ASSIGN := 0x01
  const CAPSULE_ADDRESS_REQUEST := 0x02
  const CAPSULE_ROUTE_ADVERTISEMENT := 0x03
  const MAX_CAPSULE_BUF := 256 * 1024

  datatype AssignedAddress = AssignedAddress(requestId: nat, ipVersion: Byte, address: seq<Byte>, prefixLen: Byte)

  datatype Route = Route(ipVersion: Byte, start: seq<Byte>, end: seq<Byte>, protocol: Byte)

  datatype Capsule =
    | AddressAssign(addresses: seq<AssignedAddress>)
    | AddressRequest
    | Datagram(payload: seq<Byte>)
    | RouteAdvertisement(routes: seq<Route>)
    | Unknown(kind: nat, value: seq<Byte>)

  datatype Error = TooShort | BadIpVersion

  /** A capsule as it is framed. */
  datatype Frame = Frame(kind: nat, value: seq<Byte>)

  // ---- Payloads ----

  function AddressLen(version: Byte): Option<nat> {
    if version == 4 then Some(4) else if version == 6 then Some(16) else None
  }

  /** The first address of `s` and how many octets it takes. */
  function OneAddress(s: seq<Byte>): (r: Result<(AssignedAddress, nat), Error>)
    ensures r.Ok? ==> 0 < r.value.1 <= |s|
  {
    var id := GetVarint(s);
    if id.None? || |s| <= id.value.1 then Err(TooShort)
    else
      var at := id.value.1;
      var len := AddressLen(s[at]);
      if len.None? then Err(BadIpVersion)
      else if |s| < at + 1 + len.value + 1 then Err(TooShort)
      else
        var end := at + 1 + len.value;
        Ok((AssignedAddress(id.value.0, s[at], s[at + 1..end], s[end]), end + 1))
  }

  function ParseAddresses(s: seq<Byte>): Result<seq<AssignedAddress>, Error> {
    if s == [] then Ok([])
    else
      match OneAddress(s)
      case Err(e) => Err(e)
      case Ok((a, n)) =>
        var rest := ParseAddresses(s[n..]);
        if rest.Err? then rest else Ok([a] + rest.value)
  }

  function OneRoute(s: seq<Byte>): (r: Result<(Route, nat), Error>)
    ensures r.Ok? ==> 0 < r.value.1 <= |s|
  {
    if s == [] then Err(TooShort)
    else
      var len := AddressLen(s[0]);
      if len.None? then Err(BadIpVersion)
      else if |s| < 1 + 2 * len.value + 1 then Err(TooShort)
      else
        var n := len.value;
        Ok((Route(s[0], s[1..1 + n], s[1 + n..1 + 2 * n], s[1 + 2 * n]), 2 + 2 * n))
  }

  function ParseRoutes(s: seq<Byte>): Result<seq<Route>, Error> {
    if s == [] then Ok([])
    else
      match OneRoute(s)
      case Err(e) => Err(e)
      case Ok((a, n)) =>
        var rest := ParseRoutes(s[n..]);
        if rest.Err? then rest else Ok([a] + rest.value)
  }

  /** The payload parser as a cursor loop. */
  method ParseAddressAssign(value: seq<Byte>) returns (r: Result<seq<AssignedAddress>, Error>)
    ensures r == ParseAddresses(value)
  {
    hide OneAddress;
    var at: nat, out := 0, [];
    assert value[0..] == value;
    assert ParseAddresses(value).Ok? ==> [] + ParseAddresses(value).value == ParseAddresses(value).value;
    while at < |value|
      invariant at <= |value|
      invariant ParseAddresses(value) ==
                match ParseAddresses(value[at..]) case Ok(more) => Ok(out + more) case Err(e) => Err(e)
      decreases |value| - at
    {
      var one := OneAddress(value[at..]);
      if one.Err? {
        return Err(one.error);
      }
      var (a, n) := one.value;
      assert value[at..][n..] == value[at + n..];
      ghost var more := ParseAddresses(value[at + n..]);
      assert more.Ok? ==> out + ([a] + more.value) == out + [a] + more.value;
      out := out + [a];
      at := at + n;
    }
    assert value[at..] == [] && out + [] == out;
    return Ok(out);
  }

  method ParseRouteAdvertisement(value: seq<Byte>) returns (r: Result<seq<Route>, Error>)
    ensures r == ParseRoutes(value)
  {
    hide OneRoute;
    var at: nat, out := 0, [];
    assert value[0..] == value;
    assert ParseRoutes(value).Ok? ==> [] + ParseRoutes(value).value == ParseRoutes(value).value;
    while at < |value|
      invariant at <= |value|
      invariant ParseRoutes(value) ==
                match ParseRoutes(value[at..]) case Ok(more) => Ok(out + more) case Err(e) => Err(e)
      decreases |value| - at
    {
      var one := OneRoute(value[at..]);
      if one.Err? {
        return Err(one.error);
      }
      var (a, n) := one.value;
      assert value[at..][n..] == value[at + n..];
      ghost var more := ParseRoutes(value[at + n..]);
      assert more.Ok? ==> out + ([a] + more.value) == out + [a] + more.value;
      out := out + [a];
      at := at + n;
    }
    assert value[at..] == [] && out + [] == out;
    return Ok(out);
  }

  predicate ValidAddress(a: AssignedAddress) {
    && a.requestId < MAX_VARINT
    && ((a.ipVersion == 4 && |a.address| == 4) || (a.ipVersion == 6 && |a.address| == 16))
  }

  function EncodeAddress(a: AssignedAddress): seq<Byte>
    requires ValidAddress(a)
  {
    PutVarint(a.requestId) + ([a.ipVersion] + a.address + [a.prefixLen])
  }

  function EncodeAddresses(addresses: seq<AssignedAddress>): seq<Byte>
    requires forall a | a in addresses :: ValidAddress(a)
  {
    if addresses == [] then [] else EncodeAddress(addresses[0]) + EncodeAddresses(addresses[1..])
  }

  lemma OneAddressReadsBack(a: AssignedAddress, rest: seq<Byte>)
    requires ValidAddress(a)
    ensures OneAddress(EncodeAddress(a) + rest) == Ok((a, |EncodeAddress(a)|))
  {
    hide GetVarint, PutVarint;
    var tail := [a.ipVersion] + a.address + [a.prefixLen];
    var s := EncodeAddress(a) + rest;
    assert s == PutVarint(a.requestId) + (tail + rest);
    RoundTrip(a.requestId, tail + rest);
    var at := VarintLen(a.requestId);
    assert s[at..] == tail + rest;
    assert s[at + 1..at + 1 + |a.address|] == (tail + rest)[1..1 + |a.address|] == a.address;
    assert s[at + 1 + |a.address|] == (tail + rest)[1 + |a.address|] == a.prefixLen;
  }

  /** Every list of addresses reads back from its payload. */
  lemma {:induction false} AddressesReadBack(addresses: seq<AssignedAddress>)
    requires forall a | a in addresses :: ValidAddress(a)
    ensures ParseAddresses(EncodeAddresses(addresses)) == Ok(addresses)
  {
    hide EncodeAddress, OneAddress;
    if addresses != [] {
      var a, rest := addresses[0], EncodeAddresses(addresses[1..]);
      OneAddressReadsBack(a, rest);
      AddressesReadBack(addresses[1..]);
      assert (EncodeAddress(a) + rest)[|EncodeAddress(a)|..] == rest;
      assert [a] + addresses[1..] == addresses;
    }
  }

  predicate ValidRoute(a: Route) {
    || (a.ipVersion == 4 && |a.start| == 4 && |a.end| == 4)
    || (a.ipVersion == 6 && |a.start| == 16 && |a.end| == 16)
  }

  function EncodeRoute(a: Route): seq<Byte> { [a.ipVersion] + a.start + a.end + [a.protocol] }

  function EncodeRoutes(routes: seq<Route>): seq<Byte> {
    if routes == [] then [] else EncodeRoute(routes[0]) + EncodeRoutes(routes[1..])
  }

  lemma OneRouteReadsBack(a: Route, rest: seq<Byte>)
    requires ValidRoute(a)
    ensures OneRoute(EncodeRoute(a) + rest) == Ok((a, |EncodeRoute(a)|))
  {
    var s, n := EncodeRoute(a) + rest, |a.start|;
    assert s[1..1 + n] == a.start;
    assert s[1 + n..1 + 2 * n] == a.end;
    assert s[1 + 2 * n] == a.protocol;
  }

  /** Every list of routes reads back from its payload. */
  lemma {:induction false} RoutesReadBack(routes: seq<Route>)
    requires forall a | a in routes :: ValidRoute(a)
    ensures ParseRoutes(EncodeRoutes(routes)) == Ok(routes)
  {
    hide EncodeRoute, OneRoute;
    if routes != [] {
      var a, rest := routes[0], EncodeRoutes(routes[1..]);
      OneRouteReadsBack(a, rest);
      RoutesReadBack(routes[1..]);
      assert (EncodeRoute(a) + rest)[|EncodeRoute(a)|..] == rest;
      assert [a] + routes[1..] == routes;
    }
  }

  // ---- Frames ----

  predicate Framable(f: Frame) { f.kind < MAX_VARINT && |f.value| < MAX_VARINT }

  function EncodeFrame(f: Frame): (s: seq<Byte>)
    requires Framable(f)
    ensures |s| == VarintLen(f.kind) + VarintLen(|f.value|) + |f.value|
  {
    PutVarint(f.kind) + PutVarint(|f.value|) + f.value
  }

  function EncodeFrames(fs: seq<Frame>): seq<Byte>
    requires forall f | f in fs :: Framable(f)
  {
    if fs == [] then [] else EncodeFrame(fs[0]) + EncodeFrames(fs[1..])
  }

  /** The frame that starts `s` and how many octets it takes; nothing when it has not all come. */
  function OneFrame(s: seq<Byte>): (r: Option<(Frame, nat)>)
    ensures r.Some? ==> 0 < r.value.1 <= |s|
  {
    var kind := GetVarint(s);
    if kind.None? then None
    else
      var len := GetVarint(s[kind.value.1..]);
      if len.None? then None
      else
        var at := kind.value.1 + len.value.1;
        if |s| - at < len.value.0 then None
        else Some((Frame(kind.value.0, s[at..at + len.value.0]), at + len.value.0))
  }

  /** What a frame means: a malformed payload is an error, and no more of the stream than the frame. */
  function Meaning(f: Frame): Result<Capsule, Error> {
    if f.kind == CAPSULE_ADDRESS_ASSIGN then
      match ParseAddresses(f.value) case Ok(a) => Ok(AddressAssign(a)) case Err(e) => Err(e)
    else if f.kind == CAPSULE_ADDRESS_REQUEST then Ok(AddressRequest)
    else if f.kind == CAPSULE_ROUTE_ADVERTISEMENT then
      match ParseRoutes(f.value) case Ok(a) => Ok(RouteAdvertisement(a)) case Err(e) => Err(e)
    else if f.kind == CAPSULE_DATAGRAM then Ok(Datagram(f.value))
    else Ok(Unknown(f.kind, f.value))
  }

  /** Every frame that `s` holds whole. */
  function Frames(s: seq<Byte>): seq<Frame> {
    match OneFrame(s)
    case None => []
    case Some((f, n)) => [f] + Frames(s[n..])
  }

  /** What `s` holds after its whole frames. */
  function Leftover(s: seq<Byte>): seq<Byte> {
    match OneFrame(s)
    case None => s
    case Some((_, n)) => Leftover(s[n..])
  }

  lemma OneFrameReadsBack(f: Frame, rest: seq<Byte>)
    requires Framable(f)
    ensures OneFrame(EncodeFrame(f) + rest) == Some((f, |EncodeFrame(f)|))
  {
    hide GetVarint, PutVarint;
    var k, l := PutVarint(f.kind), PutVarint(|f.value|);
    var s := EncodeFrame(f) + rest;
    assert s == k + (l + (f.value + rest));
    RoundTrip(f.kind, l + (f.value + rest));
    assert s[|k|..] == l + (f.value + rest);
    RoundTrip(|f.value|, f.value + rest);
    var at := |k| + |l|;
    assert s[at..at + |f.value|] == f.value;
  }

  lemma FrontFrame(f: Frame, tail: seq<Byte>)
    requires Framable(f)
    ensures Frames(EncodeFrame(f) + tail) == [f] + Frames(tail)
    ensures Leftover(EncodeFrame(f) + tail) == Leftover(tail)
  {
    hide EncodeFrame, OneFrame;
    OneFrameReadsBack(f, tail);
    assert (EncodeFrame(f) + tail)[|EncodeFrame(f)|..] == tail;
  }

  /** Any list of frames, encoded one after the other, decodes to the list, kinds and values, with
      nothing left over. */
  lemma {:induction false} FramesReadBack(fs: seq<Frame>, rest: seq<Byte>)
    requires forall f | f in fs :: Framable(f)
    ensures Frames(EncodeFrames(fs) + rest) == fs + Frames(rest)
    ensures Leftover(EncodeFrames(fs) + rest) == Leftover(rest)
    decreases |fs|
  {
    hide EncodeFrame, Frames, Leftover;
    if fs == [] {
      assert EncodeFrames(fs) + rest == rest;
    } else {
      var f, more := fs[0], EncodeFrames(fs[1..]);
      assert EncodeFrames(fs) + rest == EncodeFrame(f) + (more + rest);
      FrontFrame(f, more + rest);
      FramesReadBack(fs[1..], rest);
      assert [f] + (fs[1..] + Frames(rest)) == fs + Frames(rest);
    }
  }

  lemma OneFrameExtends(s: seq<Byte>, more: seq<Byte>)
    requires OneFrame(s).Some?
    ensures OneFrame(s + more) == OneFrame(s)
  {
    hide GetVarint;
    var (kind, k) := GetVarint(s).value;
    GetExtends(s, more);
    assert (s + more)[k..] == s[k..] + more;
    GetExtends(s[k..], more);
    var (len, l) := GetVarint(s[k..]).value;
    assert (s + more)[k + l..k + l + len] == s[k + l..k + l + len];
  }

  /** What has come decodes to the same frames whatever follows, and what follows goes on from what
      was left over. */
  lemma {:induction false} FramesExtend(s: seq<Byte>, more: seq<Byte>)
    ensures Frames(s + more) == Frames(s) + Frames(Leftover(s) + more)
    ensures Leftover(s + more) == Leftover(Leftover(s) + more)
    decreases |s|
  {
    hide OneFrame;
    if OneFrame(s).Some? {
      var (f, n) := OneFrame(s).value;
      OneFrameExtends(s, more);
      assert (s + more)[n..] == s[n..] + more;
      FramesExtend(s[n..], more);
      var tail := Frames(Leftover(s) + more);
      assert [f] + (Frames(s[n..]) + tail) == [f] + Frames(s[n..]) + tail;
    }
  }

  // ---- The parser ----

  class CapsuleParser {
    var buf: seq<Byte>

    constructor ()
      ensures buf == []
    {
      buf := [];
    }

    method Push(data: seq<Byte>)
      modifies this
      ensures buf == if |old(buf)| + |data| > 262_144 then [] else old(buf) + data
    {
      if |buf| + |data| > MAX_CAPSULE_BUF {
        buf := [];
        return;
      }
      buf := buf + data;
    }

    /** The next whole frame off the front of the buffer. */
    method TakeFrame() returns (f: Option<Frame>)
      modifies this
      ensures match OneFrame(old(buf))
              case None => f.None? && buf == old(buf)
              case Some((g, n)) => f == Some(g) && buf == old(buf)[n..]
    {
      hide GetVarint;
      var kind := GetVarint(buf);
      if kind.None? {
        return None;
      }
      var len := GetVarint(buf[kind.value.1..]);
      if len.None? {
        return None;
      }
      var at := kind.value.1 + len.value.1;
      if |buf| - at < len.value.0 {
        return None;
      }
      f := Some(Frame(kind.value.0, buf[at..at + len.value.0]));
      buf := buf[at + len.value.0..];
    }

    /** The next capsule, an error for a malformed one, or nothing; a frame is consumed whole either way. */
    method Next() returns (r: Option<Result<Capsule, Error>>)
      modifies this
      ensures match OneFrame(old(buf))
              case None => r.None? && buf == old(buf)
              case Some((f, n)) => r == Some(Meaning(f)) && buf == old(buf)[n..]
      ensures r.None? ==> Frames(buf) == []
      ensures r.Some? ==> Frames(old(buf)) != [] && r.value == Meaning(Frames(old(buf))[0])
                          && Frames(buf) == Frames(old(buf))[1..] && Leftover(buf) == Leftover(old(buf))
                          && |buf| < |old(buf)|
    {
      hide OneFrame, ParseAddresses, ParseRoutes;
      var f := TakeFrame();
      if f.None? {
        return None;
      }
      var kind, value := f.value.kind, f.value.value;
      if kind == CAPSULE_ADDRESS_ASSIGN {
        var parsed := ParseAddressAssign(value);
        return Some(match parsed case Ok(a) => Ok(AddressAssign(a)) case Err(e) => Err(e));
      } else if kind == CAPSULE_ADDRESS_REQUEST {
        return Some(Ok(AddressRequest));
      } else if kind == CAPSULE_ROUTE_ADVERTISEMENT {
        var parsed := ParseRouteAdvertisement(value);
        return Some(match parsed case Ok(a) => Ok(RouteAdvertisement(a)) case Err(e) => Err(e));
      } else if kind == CAPSULE_DATAGRAM {
        return Some(Ok(Datagram(value)));
      }
      return Some(Ok(Unknown(kind, value)));
    }
  }

  // ---- Runs of the parser ----

  datatype Call = Push(data: seq<Byte>) | Next

  /** A parser with all it was given and all it gave. */
  datatype Parsing = Parsing(buf: seq<Byte>, given: seq<Byte>, got: seq<Result<Capsule, Error>>)

  function Meanings(fs: seq<Frame>): seq<Result<Capsule, Error>> {
    seq(|fs|, i requires 0 <= i < |fs| => Meaning(fs[i]))
  }

  function CallStep(p: Parsing, c: Call): Parsing {
    match c
    case Push(data) =>
      p.(given := p.given + data, buf := if |p.buf| + |data| > MAX_CAPSULE_BUF then [] else p.buf + data)
    case Next =>
      match OneFrame(p.buf)
      case None => p
      case Some((f, n)) => p.(buf := p.buf[n..], got := p.got + [Meaning(f)])
  }

  function Calls(p: Parsing, calls: seq<Call>): Parsing
    decreases |calls|
  {
    if calls == [] then p else CallStep(Calls(p, calls[..|calls| - 1]), calls[|calls| - 1])
  }

  /** The buffer's limit is never hit. */
  ghost predicate WithinLimit(p: Parsing, calls: seq<Call>)
    decreases |calls|
  {
    calls == [] ||
    var init, last := calls[..|calls| - 1], calls[|calls| - 1];
    WithinLimit(p, init) && (last.Push? ==> |Calls(p, init).buf| + |last.data| <= 262_144)
  }

  const NEW_PARSER := Parsing([], [], [])

  lemma MeaningsAppend(a: seq<Frame>, b: seq<Frame>)
    ensures Meanings(a + b) == Meanings(a) + Meanings(b)
  {
    hide Meaning;
  }

  /** In every run that stays within the limit, what was got and what the buffer still holds are the
      decoding of all that was given. */
  lemma {:induction false} RunDecodes(calls: seq<Call>)
    requires WithinLimit(NEW_PARSER, calls)
    ensures var p := Calls(NEW_PARSER, calls);
            && Meanings(Frames(p.given)) == p.got + Meanings(Frames(p.buf))
            && Leftover(p.given) == Leftover(p.buf)
    decreases |calls|
  {
    hide Meaning, OneFrame;
    if calls != [] {
      var init, last := calls[..|calls| - 1], calls[|calls| - 1];
      RunDecodes(init);
      var p := Calls(NEW_PARSER, init);
      if last.Push? {
        PushDecodes(p, last.data);
      } else if OneFrame(p.buf).Some? {
        var (f, n) := OneFrame(p.buf).value;
        MeaningsAppend([f], Frames(p.buf[n..]));
        assert p.got + ([Meaning(f)] + Meanings(Frames(p.buf[n..]))) ==
               p.got + [Meaning(f)] + Meanings(Frames(p.buf[n..]));
      }
    }
  }

  lemma PushDecodes(p: Parsing, data: seq<Byte>)
    requires Meanings(Frames(p.given)) == p.got + Meanings(Frames(p.buf))
    requires Leftover(p.given) == Leftover(p.buf)
    ensures Meanings(Frames(p.given + data)) == p.got + Meanings(Frames(p.buf + data))
    ensures Leftover(p.given + data) == Leftover(p.buf + data)
  {
    hide Meanings, Frames, Leftover;
    FramesExtend(p.given, data);
    FramesExtend(p.buf, data);
    var tail := Frames(Leftover(p.buf) + data);
    MeaningsAppend(Frames(p.given), tail);
    MeaningsAppend(Frames(p.buf), tail);
    assert p.got + Meanings(Frames(p.buf)) + Meanings(tail) == p.got + (Meanings(Frames(p.buf)) + Meanings(tail));
  }

  /** Over every interleaving of pushes and takes within the limit, what was taken is a prefix of the
      decoding of all that came, and all of it exactly when no whole frame is left to take. */
  lemma TakenIsPrefix(calls: seq<Call>)
    requires WithinLimit(NEW_PARSER, calls)
    ensures var p := Calls(NEW_PARSER, calls);
            && p.got <= Meanings(Frames(p.given))
            && (p.got == Meanings(Frames(p.given)) <==> OneFrame(p.buf).None?)
  {
    hide Calls, Meaning, OneFrame;
    RunDecodes(calls);
  }

  // ---- What a server writes ----

  /** A capsule as a server means it. */
  datatype Message =
    | Assign(addresses: seq<AssignedAddress>)
    | Request(value: seq<Byte>)
    | Advertise(routes: seq<Route>)
    | Carry(payload: seq<Byte>)
    | Other(kind: nat, value: seq<Byte>)

  ghost predicate Writable(m: Message) {
    match m
    case Assign(addresses) =>
      (forall a | a in addresses :: ValidAddress(a)) && |EncodeAddresses(addresses)| < MAX_VARINT
    case Request(value) => |value| < MAX_VARINT
    case Advertise(routes) => (forall a | a in routes :: ValidRoute(a)) && |EncodeRoutes(routes)| < MAX_VARINT
    case Carry(payload) => |payload| < MAX_VARINT
    case Other(kind, value) => 4 <= kind < MAX_VARINT && |value| < MAX_VARINT
  }

  /** `value` behind its length. */
  function Sized(value: seq<Byte>): seq<Byte>
    requires |value| < MAX_VARINT
  {
    PutVarint(|value|) + value
  }

  /** A capsule on the wire: 1 assigns addresses, 2 asks for some, 3 advertises routes, 0 carries a payload. */
  ghost function Wire(m: Message): seq<Byte>
    requires Writable(m)
  {
    match m
    case Assign(addresses) => [1] + Sized(EncodeAddresses(addresses))
    case Request(value) => [2] + Sized(value)
    case Advertise(routes) => [3] + Sized(EncodeRoutes(routes))
    case Carry(payload) => [0] + Sized(payload)
    case Other(kind, value) => PutVarint(kind) + Sized(value)
  }

  function Said(m: Message): Capsule {
    match m
    case Assign(addresses) => AddressAssign(addresses)
    case Request(_) => AddressRequest
    case Advertise(routes) => RouteAdvertisement(routes)
    case Carry(payload) => Datagram(payload)
    case Other(kind, value) => Unknown(kind, value)
  }

  ghost function FrameFor(m: Message): Frame
    requires Writable(m)
  {
    match m
    case Assign(addresses) => Frame(1, EncodeAddresses(addresses))
    case Request(value) => Frame(2, value)
    case Advertise(routes) => Frame(3, EncodeRoutes(routes))
    case Carry(payload) => Frame(0, payload)
    case Other(kind, value) => Frame(kind, value)
  }

  lemma OneOctet(k: nat)
    requires k < 64
    ensures PutVarint(k) == [k]
  {
    assert Octets(k, 1) == Octets(k / 256, 0) + [k % 256];
  }

  /** What a server writes is one frame, and the frame means what the server meant. */
  lemma MessageRead(m: Message)
    requires Writable(m)
    ensures var f := FrameFor(m); Framable(f) && EncodeFrame(f) == Wire(m) && Meaning(f) == Ok(Said(m))
  {
    hide PutVarint, ParseAddresses, ParseRoutes, EncodeAddresses, EncodeRoutes;
    var f := FrameFor(m);
    assert PutVarint(f.kind) + PutVarint(|f.value|) + f.value == PutVarint(f.kind) + Sized(f.value);
    match m
    case Assign(addresses) => OneOctet(1); AddressesReadBack(addresses);
    case Request(_) => OneOctet(2);
    case Advertise(routes) => OneOctet(3); RoutesReadBack(routes);
    case Carry(_) => OneOctet(0);
    case Other(_, _) =>
  }

  /** Pushed and taken, the octets of each capsule give what the server meant by it, and nothing is left. */
  lemma PushedAndTaken(m: Message)
    requires Writable(m) && |Wire(m)| <= 262_144
    ensures Calls(NEW_PARSER, [Push(Wire(m)), Next]) == Parsing([], Wire(m), [Ok(Said(m))])
  {
    hide Meaning, EncodeFrame, OneFrame, Wire;
    MessageRead(m);
    var f, w := FrameFor(m), Wire(m);
    OneFrameReadsBack(f, []);
    assert w + [] == w && [] + w == w && w[|w|..] == [];
    var calls := [Push(w), Next];
    assert calls[..1] == [Push(w)] && [Push(w)][..0] == [];
    assert Calls(NEW_PARSER, [Push(w)]) == Parsing(w, w, []);
  }

  ghost function Wires(ms: seq<Message>): seq<Byte>
    requires forall m | m in ms :: Writable(m)
  {
    if ms == [] then [] else Wire(ms[0]) + Wires(ms[1..])
  }

  ghost function FramesFor(ms: seq<Message>): (fs: seq<Frame>)
    requires forall m | m in ms :: Writable(m)
    ensures |fs| == |ms|
  {
    if ms == [] then [] else [FrameFor(ms[0])] + FramesFor(ms[1..])
  }

  /** A stream of them decodes to their frames, in order, with nothing left over. */
  lemma {:induction false} MessagesRead(ms: seq<Message>)
    requires forall m | m in ms :: Writable(m)
    ensures Frames(Wires(ms)) == FramesFor(ms) && Leftover(Wires(ms)) == []
    ensures forall i | 0 <= i < |ms| ::
              FramesFor(ms)[i] == FrameFor(ms[i]) && Meaning(FramesFor(ms)[i]) == Ok(Said(ms[i]))
    decreases |ms|
  {
    hide Meaning, EncodeFrame, FrameFor, Wire, Frames, Leftover;
    if ms == [] {
      NoOctets();
    } else {
      assert ms[0] in ms && forall m | m in ms[1..] :: m in ms;
      MessageRead(ms[0]);
      MessagesRead(ms[1..]);
      FrontFrame(FrameFor(ms[0]), Wires(ms[1..]));
    }
  }

  lemma NoOctets()
    ensures Frames([]) == [] && Leftover([]) == []
  {
  }

  /** A version that is neither 4 nor 6 is malformed. */
  lemma BadVersion(a: AssignedAddress, rest: seq<Byte>)
    requires a.requestId < MAX_VARINT && a.ipVersion != 4 && a.ipVersion != 6
    ensures ParseAddresses(PutVarint(a.requestId) + [a.ipVersion] + rest) == Err(BadIpVersion)
    ensures ParseRoutes([a.ipVersion] + rest) == Err(BadIpVersion)
  {
    hide GetVarint, PutVarint;
    var s := PutVarint(a.requestId) + [a.ipVersion] + rest;
    assert s == PutVarint(a.requestId) + ([a.ipVersion] + rest);
    RoundTrip(a.requestId, [a.ipVersion] + rest);
    assert s[VarintLen(a.requestId)] == a.ipVersion;
  }
}
