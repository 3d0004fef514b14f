/** Serialised ClientHellos in one record, and that both walkers read the server's name back. */
module Hellos {
  import opened Bytes
  import opened ClientHello
  import opened Hosts
  import opened Spelling
  import Varint

  datatype Extension = Extension(kind: nat, data: seq<Byte>)

  datatype Name = Name(kind: Byte, value: seq<Byte>)

  /** A hello with a server-name extension among its others. */
  datatype Hello = Hello(
    version: seq<Byte>, random: seq<Byte>, session: seq<Byte>, ciphers: seq<Byte>, compressions: seq<Byte>,
    before: seq<Extension>, names: seq<Name>, after: seq<Extension>)

  /** `s` after its length in `n` octets. */
  function Prefixed(n: nat, s: seq<Byte>): seq<Byte> { Varint.Octets(|s|, n) + s }

  function EncodeExtension(e: Extension): seq<Byte> { Varint.Octets(e.kind, 2) + Prefixed(2, e.data) }

  function EncodeExtensions(es: seq<Extension>): seq<Byte> {
    if es == [] then [] else EncodeExtension(es[0]) + EncodeExtensions(es[1..])
  }

  function EncodeNames(names: seq<Name>): seq<Byte> {
    if names == [] then [] else [names[0].kind] + Prefixed(2, names[0].value) + EncodeNames(names[1..])
  }

  function SniExtension(names: seq<Name>): Extension { Extension(0, Prefixed(2, EncodeNames(names))) }

  function Extensions(h: Hello): seq<Byte> {
    EncodeExtensions(h.before) + (EncodeExtension(SniExtension(h.names)) + EncodeExtensions(h.after))
  }

  /** What comes before the extensions. */
  function Opening(h: Hello): seq<Byte> {
    h.version + h.random + (Prefixed(1, h.session) + (Prefixed(2, h.ciphers) + Prefixed(1, h.compressions)))
  }

  function EncodeHello(h: Hello): seq<Byte> { Opening(h) + Prefixed(2, Extensions(h)) }

  function EncodeRecord(version: seq<Byte>, h: Hello): seq<Byte> {
    [0x16] + version + Prefixed(2, [1] + Prefixed(3, EncodeHello(h)))
  }

  ghost predicate WellFormed(h: Hello) {
    && |h.version| == 2 && |h.random| == 32 && |h.session| < 0x100 && |h.ciphers| < 0x1_0000 && |h.compressions| < 0x100
    && (forall e | e in h.before :: 0 < e.kind < 0x1_0000 && |e.data| < 0x1_0000)
    && h.names != [] && h.names[0].kind == 0 && |SniExtension(h.names).data| < 0x1_0000
    && |Extensions(h)| < 0x1_0000 && |EncodeHello(h)| + 4 < 0x1_0000
  }

  lemma ReadNumber(s: seq<Byte>, at: nat, v: nat, n: nat)
    requires Matches(s, Varint.Octets(v, n), at) && v < Varint.Pow256(n)
    ensures Be(s, at, n) == Some(v)
  {
    Varint.BigEndianOctets(v, n);
  }

  lemma SmallNumbers()
    ensures Varint.Pow256(1) == 0x100 && Varint.Pow256(2) == 0x1_0000 && Varint.Pow256(3) == 0x100_0000
  {
    Varint.Powers();
  }

  /** A length and what it counts, where they stand in `s`. */
  lemma ReadPrefixed(s: seq<Byte>, at: nat, n: nat, part: seq<Byte>)
    requires Matches(s, Prefixed(n, part), at) && |part| < Varint.Pow256(n)
    ensures Be(s, at, n) == Some(|part|) && Matches(s, part, at + n)
  {
    MatchesConcat(s, Varint.Octets(|part|, n), part, at);
    ReadNumber(s, at, |part|, n);
  }

  lemma ReadExtension(s: seq<Byte>, at: nat, e: Extension)
    requires Matches(s, EncodeExtension(e), at) && e.kind < 0x1_0000 && |e.data| < 0x1_0000
    ensures Be(s, at, 2) == Some(e.kind) && Be(s, at + 2, 2) == Some(|e.data|) && Matches(s, e.data, at + 4)
    ensures |EncodeExtension(e)| == 4 + |e.data|
  {
    SmallNumbers();
    MatchesConcat(s, Varint.Octets(e.kind, 2), Prefixed(2, e.data), at);
    ReadNumber(s, at, e.kind, 2);
    ReadPrefixed(s, at + 2, 2, e.data);
  }

  /** The sniffer passes over the extensions before the server name's and stops at that one. */
  lemma {:induction false} SkipsToSni(
    hello: seq<Byte>, at: nat, end: nat, before: seq<Extension>, sni: Extension, after: seq<Byte>)
    requires forall e | e in before :: 0 < e.kind < 0x1_0000 && |e.data| < 0x1_0000
    requires sni.kind == 0 && |sni.data| < 0x1_0000 && end <= |hello|
    requires Matches(hello, EncodeExtensions(before) + (EncodeExtension(sni) + after), at)
    requires at + |EncodeExtensions(before)| + |EncodeExtension(sni)| <= end
    ensures var start := at + |EncodeExtensions(before)| + 4;
            SniffExtensions(hello, at, end) == Some((start, start + |sni.data|)) && Matches(hello, sni.data, start)
    decreases |before|
  {
    hide EncodeExtension, Be;
    if before == [] {
      assert EncodeExtensions(before) + (EncodeExtension(sni) + after) == EncodeExtension(sni) + after;
      MatchesConcat(hello, EncodeExtension(sni), after, at);
      ReadExtension(hello, at, sni);
    } else {
      var e, more := before[0], EncodeExtensions(before[1..]);
      assert e in before && forall x | x in before[1..] :: x in before;
      assert EncodeExtensions(before) + (EncodeExtension(sni) + after) ==
             EncodeExtension(e) + (more + (EncodeExtension(sni) + after));
      MatchesConcat(hello, EncodeExtension(e), more + (EncodeExtension(sni) + after), at);
      ReadExtension(hello, at, e);
      SkipsToSni(hello, at + 4 + |e.data|, end, before[1..], sni, after);
    }
  }

  /** The first name of a list that starts with a host name. */
  lemma FirstName(names: seq<Name>)
    requires names != [] && names[0].kind == 0 && |SniExtension(names).data| < 0x1_0000
    ensures var data := SniExtension(names).data;
            FirstServerName(data) == Some((5, 5 + |names[0].value|)) && Matches(data, names[0].value, 5)
            && Be(data, 2, 1) == Some(0)
  {
    hide Be;
    SmallNumbers();
    var list, n := EncodeNames(names), names[0];
    var data := Prefixed(2, list);
    assert Matches(data, data, 0);
    ReadPrefixed(data, 0, 2, list);
    var rest := EncodeNames(names[1..]);
    assert list == [n.kind] + (Prefixed(2, n.value) + rest);
    MatchesConcat(data, [n.kind], Prefixed(2, n.value) + rest, 2);
    MatchesConcat(data, Prefixed(2, n.value), rest, 3);
    ReadPrefixed(data, 3, 2, n.value);
    assert data[2..3] == [n.kind];
    OneByte(data, 2);
  }

  lemma OpeningRead(s: seq<Byte>, h: Hello)
    requires WellFormed(h) && Matches(s, Opening(h), 0)
    ensures ExtensionsAt(s) == Some(|Opening(h)|)
  {
    hide Be;
    SmallNumbers();
    var fixed := h.version + h.random;
    var a, b, c := Prefixed(1, h.session), Prefixed(2, h.ciphers), Prefixed(1, h.compressions);
    MatchesConcat(s, fixed, a + (b + c), 0);
    MatchesConcat(s, a, b + c, 34);
    MatchesConcat(s, b, c, 34 + |a|);
    ReadPrefixed(s, 34, 1, h.session);
    ReadPrefixed(s, 34 + |a|, 2, h.ciphers);
    ReadPrefixed(s, 34 + |a| + |b|, 1, h.compressions);
  }

  /** Where the name stands in a serialised hello. */
  function NameAt(h: Hello): nat { |Opening(h)| + 2 + |EncodeExtensions(h.before)| + 4 + 5 }

  lemma HelloRead(h: Hello)
    requires WellFormed(h)
    ensures var s := EncodeHello(h);
            && SniffHello(s) == Some((NameAt(h), NameAt(h) + |h.names[0].value|))
            && Matches(s, h.names[0].value, NameAt(h)) && HostFirst(s)
  {
    hide Opening, Extensions, Be, ExtensionsAt, SniffExtensions, EncodeExtension, FirstServerName, EncodeNames, Matches,
         EncodeExtensions, Prefixed, Varint.Octets;
    SmallNumbers();
    var s, sni := EncodeHello(h), SniExtension(h.names);
    var exts, at := Extensions(h), |Opening(h)|;
    MatchesSelf(s, []);
    MatchesConcat(s, Opening(h), Prefixed(2, exts), 0);
    OpeningRead(s, h);
    ReadPrefixed(s, at, 2, exts);
    ExtensionsLength(h);
    SkipsToSni(s, at + 2, |s|, h.before, sni, EncodeExtensions(h.after));
    FirstName(h.names);
    var start := at + 2 + |EncodeExtensions(h.before)| + 4;
    InsideSlice(s, sni.data, start, 5, h.names[0].value);
    BeWithin(sni.data, s, start, 2, 1);
  }

  lemma ExtensionsLength(h: Hello)
    requires WellFormed(h)
    ensures Extensions(h) ==
            EncodeExtensions(h.before) + (EncodeExtension(SniExtension(h.names)) + EncodeExtensions(h.after))
    ensures |EncodeHello(h)| == |Opening(h)| + 2 + |Extensions(h)|
  {
  }

  lemma InsideSlice(s: seq<Byte>, part: seq<Byte>, at: nat, off: nat, inner: seq<Byte>)
    requires Matches(s, part, at) && Matches(part, inner, off)
    ensures Matches(s, inner, at + off) && Within(part, s, at)
  {
    SliceOfSlice(s, at, |part|, off, off + |inner|);
  }

  lemma RecordRead(version: seq<Byte>, h: Hello, rest: seq<Byte>)
    requires WellFormed(h) && |version| == 2
    ensures HelloOf(EncodeRecord(version, h) + rest) == Some(EncodeHello(h))
    ensures Matches(EncodeRecord(version, h) + rest, EncodeHello(h), 9)
  {
    hide EncodeHello, Be;
    SmallNumbers();
    var hello := EncodeHello(h);
    var body := [1] + Prefixed(3, hello);
    var record := EncodeRecord(version, h);
    var buf := record + rest;
    assert Matches(buf, record, 0);
    MatchesConcat(buf, [0x16] + version, Prefixed(2, body), 0);
    MatchesConcat(buf, [0x16], version, 0);
    assert buf[0..1] == [0x16];
    ReadPrefixed(buf, 3, 2, body);
    assert buf[5..5 + |body|] == body;
    assert Matches(body, body, 0);
    MatchesConcat(body, [1], Prefixed(3, hello), 0);
    ReadPrefixed(body, 1, 3, hello);
    assert body[4..4 + |hello|] == hello;
    InsideSlice(buf, body, 5, 4, hello);
  }

  /** From any serialised hello in one record, whatever follows it, whose server-name list starts with the name of
      a host, however it is written, the sniffer gives that name in small letters, and both walkers recover exactly
      the octets of it. */
  lemma BothRecoverTheName(version: seq<Byte>, h: Hello, rest: seq<Byte>, name: seq<Byte>)
    requires WellFormed(h) && |version| == 2 && IsHost(name) && Writes(h.names[0].value, name)
    ensures var buf, raw := EncodeRecord(version, h) + rest, h.names[0].value;
            && TlsSni(buf) == Some(Small(name))
            && SniHostRange(buf) == Some((9 + NameAt(h), 9 + NameAt(h) + |raw|))
            && Matches(buf, raw, 9 + NameAt(h))
  {
    hide PlausibleHost, EncodeRecord, HelloOf, SniHostRange, SniffHello, Be, EncodeHello, NameAt, ExtensionsAt,
         SniffExtensions, IsHost, Writes, Small;
    var buf := EncodeRecord(version, h) + rest;
    HostTaken(h.names[0].value, name);
    SniffedName(version, h, rest);
    WalkersAgree(buf);
  }

  lemma SniffedName(version: seq<Byte>, h: Hello, rest: seq<Byte>)
    requires WellFormed(h) && |version| == 2
    ensures var buf, raw := EncodeRecord(version, h) + rest, h.names[0].value;
            && TlsSni(buf) == PlausibleHost(raw) && HostNameFirst(buf)
            && NameRange(buf) == Some((9 + NameAt(h), 9 + NameAt(h) + |raw|)) && Matches(buf, raw, 9 + NameAt(h))
  {
    hide PlausibleHost, EncodeRecord, HelloOf, SniffHello, Be, EncodeHello, NameAt, ExtensionsAt, SniffExtensions;
    var buf := EncodeRecord(version, h) + rest;
    RecordRead(version, h, rest);
    HelloRead(h);
    InsideSlice(buf, EncodeHello(h), 9, NameAt(h), h.names[0].value);
  }

  /** Where the first name is no name of a host, the sniffer gives none. */
  lemma NoNameNoHost(version: seq<Byte>, h: Hello, rest: seq<Byte>)
    requires WellFormed(h) && |version| == 2
    requires forall name :: IsHost(name) ==> !Writes(h.names[0].value, name)
    ensures TlsSni(EncodeRecord(version, h) + rest).None?
  {
    hide PlausibleHost, EncodeRecord, IsHost, Writes, TlsSni;
    SniffedName(version, h, rest);
    if PlausibleHost(h.names[0].value).Some? {
      var name := TakenIsHost(h.names[0].value);
    }
  }
}
