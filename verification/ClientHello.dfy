/** The server name of a TLS ClientHello (section 4.1.2 of RFC 8446, section 3 of RFC 6066), found by two
    walkers: one that sniffs the host for routing, one that finds where to cut the hello in two. */
module ClientHello {
  import opened Bytes
  import opened Text

  const MAX_HOST_LEN := 253

  /** `n` octets at `at` as a number. */
  function Be(s: seq<Byte>, at: nat, n: nat): Option<nat> {
    if at + n <= |s| then Some(BigEndian(s[at..at + n])) else None
  }

  // ---- The sniffer ----

  predicate HostByte(b: Byte) {
    48 <= b <= 57 || 65 <= b <= 90 || 97 <= b <= 122 || b == 45 || b == DOT || b == 95
  }

  function TrimDots(s: seq<Byte>): seq<Byte> {
    if s != [] && s[|s| - 1] == DOT then TrimDots(s[..|s| - 1]) else s
  }

  /** One part of a dotted IPv4 address: up to three digits, none of them a leading zero. */
  predicate Ipv4Part(part: seq<Byte>) {
    && 1 <= |part| <= 3 && (forall b | b in part :: 48 <= b <= 57)
    && (|part| > 1 ==> part[0] != 48) && Digits(part, 10).Some? && Digits(part, 10).value <= 255
  }

  predicate IsIpv4(name: seq<Byte>) {
    var parts := Split(name, [DOT]);
    |parts| == 4 && forall i | 0 <= i < 4 :: Ipv4Part(parts[i])
  }

  /** The host a name normalises to, when it is plausibly one. */
  function PlausibleHost(raw: seq<Byte>): Option<seq<Byte>> {
    if raw == [] || |raw| > MAX_HOST_LEN || !ValidUtf8(raw) then None
    else
      var name := TrimDots(Trim(raw));
      if name == [] || |name| > MAX_HOST_LEN || !(forall b | b in name :: HostByte(b)) || DOT !in name || IsIpv4(name)
      then None
      else Some(LowerAll(name))
  }

  /** The range of the first name of the host-name kind in a list of names. */
  function Names(data: seq<Byte>, at: nat, end: nat): Option<(nat, nat)>
    requires end <= |data|
    decreases end - at
  {
    if at + 3 > end then None
    else
      var start := at + 3;
      var stop := start + Be(data, at + 1, 2).value;
      if stop > end then None
      else if data[at] == 0 then Some((start, stop))
      else Names(data, stop, end)
  }

  function FirstServerName(data: seq<Byte>): Option<(nat, nat)> {
    var listLen := Be(data, 0, 2);
    if listLen.None? then None else Names(data, 2, Least(2 + listLen.value, |data|))
  }

  /** The range of the data of the first server-name extension. */
  function SniffExtensions(hello: seq<Byte>, at: nat, end: nat): (r: Option<(nat, nat)>)
    requires end <= |hello|
    ensures r.Some? ==> at + 4 <= r.value.0 <= r.value.1 <= end
    decreases end - at
  {
    if at + 4 > end then None
    else
      var kind, len := Be(hello, at, 2).value, Be(hello, at + 2, 2).value;
      var stop := at + 4 + len;
      if stop > end then None
      else if kind == 0 then Some((at + 4, stop))
      else SniffExtensions(hello, stop, end)
  }

  /** Where the extensions of a hello start, past the session id, the ciphers and the compressions. */
  function ExtensionsAt(hello: seq<Byte>): Option<nat> {
    var session := Be(hello, 34, 1);
    if session.None? then None
    else
      var a := 35 + session.value;
      var ciphers := Be(hello, a, 2);
      if ciphers.None? then None
      else
        var b := a + 2 + ciphers.value;
        var compressions := Be(hello, b, 1);
        if compressions.None? then None else Some(b + 1 + compressions.value)
  }

  /** The range of the server name's octets in a hello. */
  function SniffHello(hello: seq<Byte>): Option<(nat, nat)> {
    var at := ExtensionsAt(hello);
    if at.None? || Be(hello, at.value, 2).None? then None
    else
      var start := at.value + 2;
      var found := SniffExtensions(hello, start, Least(start + Be(hello, at.value, 2).value, |hello|));
      if found.None? then None
      else
        var (from, to) := found.value;
        var name := FirstServerName(hello[from..to]);
        if name.None? then None else Some((from + name.value.0, from + name.value.1))
  }

  /** The hello inside its record, as far as both have come; it starts at octet 9. */
  function HelloOf(buf: seq<Byte>): Option<seq<Byte>> {
    var recordLen := Be(buf, 3, 2);
    if buf == [] || buf[0] != 0x16 || recordLen.None? then None
    else
      var body := buf[5..Least(5 + recordLen.value, |buf|)];
      var helloLen := Be(body, 1, 3);
      if body == [] || body[0] != 1 || helloLen.None? then None
      else Some(body[4..Least(4 + helloLen.value, |body|)])
  }

  /** The octets of `buf` that the sniffer takes for the server's name. */
  function NameRange(buf: seq<Byte>): Option<(nat, nat)> {
    var hello := HelloOf(buf);
    if hello.None? then None
    else
      var name := SniffHello(hello.value);
      if name.None? then None else Some((9 + name.value.0, 9 + name.value.1))
  }

  lemma {:induction false} NamesInRange(data: seq<Byte>, at: nat, end: nat)
    requires end <= |data|
    ensures var r := Names(data, at, end); r.Some? ==> at + 3 <= r.value.0 <= r.value.1 <= end
    decreases end - at
  {
    if at + 3 <= end {
      var stop := at + 3 + Be(data, at + 1, 2).value;
      if stop <= end {
        NamesInRange(data, stop, end);
      }
    }
  }

  /** The sniffer never looks outside what has come. */
  lemma NameInRange(buf: seq<Byte>)
    ensures var r := NameRange(buf); r.Some? ==> 9 <= r.value.0 <= r.value.1 <= |buf|
  {
    hide ExtensionsAt, SniffExtensions, Be;
    var hello := HelloOf(buf);
    if hello.Some? && SniffHello(hello.value).Some? {
      HelloShift(buf);
      SniffInRange(hello.value);
    }
  }

  lemma SniffInRange(hello: seq<Byte>)
    requires SniffHello(hello).Some?
    ensures SniffHello(hello).value.0 <= SniffHello(hello).value.1 <= |hello|
  {
    hide ExtensionsAt, SniffExtensions, Names;
    var at := ExtensionsAt(hello).value;
    var (from, to) := SniffExtensions(hello, at + 2, Least(at + 2 + Be(hello, at, 2).value, |hello|)).value;
    var data := hello[from..to];
    NamesInRange(data, 2, Least(2 + Be(data, 0, 2).value, |data|));
  }

  lemma HelloShift(buf: seq<Byte>)
    requires HelloOf(buf).Some?
    ensures var hello := HelloOf(buf).value; 9 + |hello| <= |buf| && hello == buf[9..9 + |hello|]
    ensures buf[0] == 0x16 && buf[5] == 1
  {
    hide BigEndian;
    var body := buf[5..Least(5 + Be(buf, 3, 2).value, |buf|)];
    assert forall i | 0 <= i < |body| :: body[i] == buf[5 + i];
  }

  function TlsSni(buf: seq<Byte>): Option<seq<Byte>> {
    var r := NameRange(buf);
    if r.None? || !(r.value.0 <= r.value.1 <= |buf|) then None else PlausibleHost(buf[r.value.0..r.value.1])
  }

  // ---- The cutter ----

  /** The name of the first entry, when it is of the host-name kind. */
  function CutEntry(buf: seq<Byte>, body: nat): Option<(nat, nat)> {
    var kind, len := Be(buf, body + 2, 1), Be(buf, body + 3, 2);
    if kind.None? || kind.value != 0 || len.None? then None
    else
      var host := body + 5;
      if len.value == 0 || host + len.value > |buf| then None else Some((host, host + len.value))
  }

  function CutExtensions(buf: seq<Byte>, at: nat, end: nat): Option<(nat, nat)>
    decreases end - at
  {
    if at + 4 > end then None
    else
      var kind, len := Be(buf, at, 2), Be(buf, at + 2, 2);
      if kind.None? || len.None? then None
      else if kind.value == 0 then CutEntry(buf, at + 4)
      else CutExtensions(buf, at + 4 + len.value, end)
  }

  function SniHostRange(buf: seq<Byte>): Option<(nat, nat)> {
    if |buf| < 6 || buf[0] != 0x16 || buf[5] != 1 then None
    else
      var session := Be(buf, 43, 1);
      if session.None? then None
      else
        var a := 44 + session.value;
        var ciphers := Be(buf, a, 2);
        if ciphers.None? then None
        else
          var b := a + 2 + ciphers.value;
          var compressions := Be(buf, b, 1);
          if compressions.None? then None
          else
            var c := b + 1 + compressions.value;
            var len := Be(buf, c, 2);
            if len.None? then None else CutExtensions(buf, c + 2, c + 2 + len.value)
  }

  // ---- The walkers as loops ----

  method FindServerName(data: seq<Byte>) returns (r: Option<(nat, nat)>)
    ensures r == FirstServerName(data)
  {
    hide BigEndian;
    var listLen := Be(data, 0, 2);
    if listLen.None? {
      return None;
    }
    var end, at := Least(2 + listLen.value, |data|), 2;
    while at + 3 <= end
      invariant end <= |data| && at >= 2
      invariant Names(data, 2, end) == Names(data, at, end)
      decreases end - at
    {
      var stop := at + 3 + Be(data, at + 1, 2).value;
      if stop > end {
        return None;
      }
      if data[at] == 0 {
        return Some((at + 3, stop));
      }
      at := stop;
    }
    return None;
  }

  method FindSniExtension(hello: seq<Byte>, start: nat, end: nat) returns (r: Option<(nat, nat)>)
    requires end <= |hello|
    ensures r == SniffExtensions(hello, start, end)
  {
    hide BigEndian;
    var at := start;
    while at + 4 <= end
      invariant SniffExtensions(hello, start, end) == SniffExtensions(hello, at, end)
      decreases end - at
    {
      var kind, len := Be(hello, at, 2).value, Be(hello, at + 2, 2).value;
      var stop := at + 4 + len;
      if stop > end {
        return None;
      }
      if kind == 0 {
        return Some((at + 4, stop));
      }
      at := stop;
    }
    return None;
  }

  method CutWalk(buf: seq<Byte>, start: nat, end: nat) returns (r: Option<(nat, nat)>)
    ensures r == CutExtensions(buf, start, end)
  {
    hide BigEndian, CutEntry;
    var at := start;
    while at + 4 <= end
      invariant CutExtensions(buf, start, end) == CutExtensions(buf, at, end)
      decreases end - at
    {
      var kind, len := Be(buf, at, 2), Be(buf, at + 2, 2);
      if kind.None? || len.None? {
        return None;
      }
      if kind.value == 0 {
        return CutEntry(buf, at + 4);
      }
      at := at + 4 + len.value;
    }
    return None;
  }

  // ---- Agreement ----

  /** Whether `part` stands in `whole` at `at`. */
  ghost predicate Within(part: seq<Byte>, whole: seq<Byte>, at: nat) {
    at + |part| <= |whole| && part == whole[at..at + |part|]
  }

  lemma BeWithin(part: seq<Byte>, whole: seq<Byte>, off: nat, at: nat, n: nat)
    requires Within(part, whole, off) && Be(part, at, n).Some?
    ensures Be(whole, off + at, n) == Be(part, at, n)
  {
    SliceOfSlice(whole, off, |part|, at, at + n);
  }

  lemma SliceOfSlice(whole: seq<Byte>, off: nat, len: nat, from: nat, to: nat)
    requires off + len <= |whole| && from <= to <= len
    ensures whole[off..off + len][from..to] == whole[off + from..off + to]
  {
    var a, b := whole[off..off + len][from..to], whole[off + from..off + to];
    assert |a| == |b| && forall i | 0 <= i < |a| :: a[i] == b[i];
  }

  /** The server-name extension the sniffer finds is the one the cutter comes to, though the cutter
      knows nothing of the hello's end. */
  lemma {:induction false} ExtensionsAgree(hello: seq<Byte>, buf: seq<Byte>, at: nat, end: nat, cutEnd: nat)
    requires Within(hello, buf, 9) && end <= |hello| && 9 + end <= cutEnd
    requires SniffExtensions(hello, at, end).Some?
    ensures CutExtensions(buf, 9 + at, cutEnd) == CutEntry(buf, 9 + SniffExtensions(hello, at, end).value.0)
    decreases end - at
  {
    hide CutEntry, Be;
    BeSome(hello, at, 2);
    BeSome(hello, at + 2, 2);
    BeWithin(hello, buf, 9, at, 2);
    BeWithin(hello, buf, 9, at + 2, 2);
    var stop := at + 4 + Be(hello, at + 2, 2).value;
    if Be(hello, at, 2).value != 0 {
      ExtensionsAgree(hello, buf, stop, end, cutEnd);
    }
  }

  lemma BeSome(s: seq<Byte>, at: nat, n: nat)
    ensures Be(s, at, n).Some? <==> at + n <= |s|
  {
  }

  /** Whether the first entry of the server-name list is of the host-name kind. */
  predicate HostFirst(hello: seq<Byte>) {
    ExtensionsAt(hello).Some? &&
    var at := ExtensionsAt(hello).value;
    Be(hello, at, 2).Some? &&
    var found := SniffExtensions(hello, at + 2, Least(at + 2 + Be(hello, at, 2).value, |hello|));
    found.Some? && Be(hello, found.value.0 + 2, 1) == Some(0)
  }

  predicate HostNameFirst(buf: seq<Byte>) { HelloOf(buf).Some? && HostFirst(HelloOf(buf).value) }

  lemma SkipAgree(hello: seq<Byte>, buf: seq<Byte>)
    requires Within(hello, buf, 9) && buf[0] == 0x16 && buf[5] == 1 && ExtensionsAt(hello).Some?
    requires Be(hello, ExtensionsAt(hello).value, 2).Some?
    ensures var at := ExtensionsAt(hello).value;
            SniHostRange(buf) == CutExtensions(buf, 9 + at + 2, 9 + at + 2 + Be(hello, at, 2).value)
  {
    hide CutExtensions, Be;
    BeWithin(hello, buf, 9, 34, 1);
    var a := 35 + Be(hello, 34, 1).value;
    BeWithin(hello, buf, 9, a, 2);
    var b := a + 2 + Be(hello, a, 2).value;
    BeWithin(hello, buf, 9, b, 1);
    BeWithin(hello, buf, 9, ExtensionsAt(hello).value, 2);
    BeSome(hello, 34, 1);
  }

  /** In the data of a server-name extension, the cutter's entry is the sniffer's name when the first
      entry is a host name, and nothing otherwise. */
  lemma EntryAgree(data: seq<Byte>, buf: seq<Byte>, body: nat)
    requires Within(data, buf, body) && FirstServerName(data).Some?
    ensures |data| > 2
    ensures data[2] == 0 ==>
              var (s, e) := FirstServerName(data).value;
              CutEntry(buf, body) == if s < e then Some((body + s, body + e)) else None
    ensures data[2] != 0 ==> CutEntry(buf, body).None?
  {
    hide BigEndian;
    var end := Least(2 + Be(data, 0, 2).value, |data|);
    NamesInRange(data, 2, end);
    BeWithin(data, buf, body, 2, 1);
    BeWithin(data, buf, body, 3, 2);
    OneByte(data, 2);
  }

  lemma OneByte(s: seq<Byte>, at: nat)
    requires at < |s|
    ensures Be(s, at, 1) == Some(s[at] as nat)
  {
    assert s[at..at + 1] == [s[at]] && [s[at]][..0] == [];
    assert BigEndian([s[at]]) == BigEndian([s[at]][..0]) * 256 + s[at];
  }

  /** Any plausible host has two octets or more. */
  lemma PlausibleIsTwo(raw: seq<Byte>)
    requires PlausibleHost(raw).Some?
    ensures |raw| >= 2
  {
    hide ValidUtf8, IsIpv4, LowerAll, Trim, TrimDots;
    if |raw| == 1 {
      OneOctet(raw);
    }
  }

  lemma OneOctet(raw: seq<Byte>)
    requires |raw| == 1
    ensures DOT !in TrimDots(Trim(raw))
  {
    hide TrimStart, TrimEnd;
    TrimOne(raw);
    if raw[0] == DOT {
      assert raw[..0] == [] && TrimDots(raw[..0]) == [];
    }
  }

  lemma TrimOne(raw: seq<Byte>)
    requires |raw| == 1
    ensures Trim(raw) == raw || Trim(raw) == []
  {
    assert raw[0..] == raw && raw[..1] == raw && raw[1..] == [] && raw[..0] == [];
    assert WhiteHead([]) == 0 && WhiteTail([]) == 0;
    assert TrimStart([]) == [] && TrimEnd([]) == [];
  }

  lemma HelloAgree(hello: seq<Byte>, buf: seq<Byte>)
    requires Within(hello, buf, 9) && buf[0] == 0x16 && buf[5] == 1
    requires SniffHello(hello).Some? && SniffHello(hello).value.0 < SniffHello(hello).value.1
    ensures var (s, e) := SniffHello(hello).value;
            SniHostRange(buf) == if HostFirst(hello) then Some((9 + s, 9 + e)) else None
  {
    hide Be, CutEntry, CutExtensions, FirstServerName, ExtensionsAt, SniffExtensions, SniHostRange;
    var at := ExtensionsAt(hello).value;
    var len := Be(hello, at, 2).value;
    var end := Least(at + 2 + len, |hello|);
    SkipAgree(hello, buf);
    ExtensionsAgree(hello, buf, at + 2, end, 9 + at + 2 + len);
    var (from, to) := SniffExtensions(hello, at + 2, end).value;
    SliceOfSlice(buf, 9, |hello|, from, to);
    EntryAgree(hello[from..to], buf, 9 + from);
    OneByte(hello, from + 2);
  }

  /** The two walkers agree on every buffer: whenever the sniffer gives a name, the cutter finds a range
      exactly when the first entry of the list is a host name, and then it is the octets of that name. */
  lemma WalkersAgree(buf: seq<Byte>)
    requires TlsSni(buf).Some?
    ensures SniHostRange(buf) == if HostNameFirst(buf) then NameRange(buf) else None
  {
    hide PlausibleHost, SniffHello, HelloOf, SniHostRange, HostFirst;
    HelloShift(buf);
    var (s, e) := NameRange(buf).value;
    PlausibleIsTwo(buf[s..e]);
    HelloAgree(HelloOf(buf).value, buf);
  }

  /** Where a first write is cut. */
  function SplitAt(range: (nat, nat)): nat
    requires range.0 <= range.1
  {
    range.0 + (range.1 - range.0) / 2
  }

  /** A hello whose name is plausible and comes first is cut strictly inside the name. */
  lemma CutInsideName(buf: seq<Byte>)
    requires TlsSni(buf).Some? && HostNameFirst(buf)
    ensures SniHostRange(buf).Some?
    ensures var r := SniHostRange(buf).value;
            r.0 < r.1 <= |buf| && r.0 < SplitAt(r) < r.1 && TlsSni(buf) == PlausibleHost(buf[r.0..r.1])
  {
    hide PlausibleHost, HostNameFirst, NameRange, SniHostRange;
    WalkersAgree(buf);
    NameInRange(buf);
    var (s, e) := NameRange(buf).value;
    PlausibleIsTwo(buf[s..e]);
  }
}
