/** Names of hosts in letters and numbers: which octets the sniffer takes for a name, and which names the resolver
    asks for. */
module Hosts {
  import opened Bytes
  import opened Text
  import opened Spelling
  import opened ClientHello
  import Dns

  // ---- Dots behind a name ----

  function Dots(n: nat): seq<Byte> { seq(n, _ => 46) }

  lemma {:induction false} DotsTrim(x: seq<Byte>, n: nat)
    requires x != [] && x[|x| - 1] != 46
    ensures TrimDots(x + Dots(n)) == x
    decreases n
  {
    var s := x + Dots(n);
    if n == 0 {
      assert s == x;
    } else {
      DotsTrim(x, n - 1);
      assert s[..|s| - 1] == x + Dots(n - 1) && s[|s| - 1] == 46;
    }
  }

  lemma {:induction false} DotsTrimmed(s: seq<Byte>) returns (n: nat)
    ensures s == TrimDots(s) + Dots(n) && (TrimDots(s) != [] ==> TrimDots(s)[|TrimDots(s)| - 1] != 46)
    decreases |s|
  {
    if s != [] && s[|s| - 1] == 46 {
      var k := DotsTrimmed(s[..|s| - 1]);
      n := k + 1;
      assert s == s[..|s| - 1] + [46] && Dots(k) + [46] == Dots(n);
      var x := TrimDots(s[..|s| - 1]);
      assert x + Dots(k) + [46] == x + (Dots(k) + [46]);
    } else {
      n := 0;
    }
  }

  // ---- Four decimal parts ----

  /** Four numbers below 256 in decimal, with dots between them. */
  ghost predicate Quad(s: seq<Byte>) {
    exists a: nat, b: nat, c: nat, d: nat :: QuadOf(s, a, b, c, d)
  }

  ghost predicate QuadOf(s: seq<Byte>, a: nat, b: nat, c: nat, d: nat) {
    && a < 256 && b < 256 && c < 256 && d < 256
    && s == JoinBy([Dec(a), Dec(b), Dec(c), Dec(d)], 46)
  }

  lemma PartIff(part: seq<Byte>)
    ensures Ipv4Part(part) ==> Digits(part, 10).value < 256 && part == Dec(Digits(part, 10).value)
  {
    if Ipv4Part(part) {
      assert part[0] in part;
      if |part| == 1 {
        assert part[..0] == [] && Digits(part[..0], 10) == Some(0);
      } else {
        assert part[1] in part;
        TwoDigits(part[0], part[1]);
        if |part| == 2 {
          assert part == [part[0], part[1]];
        } else {
          assert part[2] in part;
          assert part == [part[0], part[1], part[2]];
          ThreeDigits(part[0], part[1], part[2]);
        }
      }
    }
  }

  lemma TwoDigits(a: Byte, b: Byte)
    requires 48 < a <= 57 && 48 <= b <= 57
    ensures var n := (a - 48) * 10 + (b - 48); Digits([a, b], 10) == Some(n) && Dec(n) == [a, b]
  {
    assert [a, b][..1] == [a] && [a][..0] == [];
    assert Digits([a], 10) == Some(a - 48);
    var n := (a - 48) * 10 + (b - 48);
    assert n / 10 == a - 48 && n % 10 == b - 48;
    assert Dec(n) == Dec(n / 10) + [48 + n % 10];
  }

  lemma ThreeDigits(a: Byte, b: Byte, c: Byte)
    requires 48 < a <= 57 && 48 <= b <= 57 && 48 <= c <= 57
    ensures var n := ((a - 48) * 10 + (b - 48)) * 10 + (c - 48); Digits([a, b, c], 10) == Some(n) && Dec(n) == [a, b, c]
  {
    TwoDigits(a, b);
    assert [a, b, c][..2] == [a, b];
    var n := ((a - 48) * 10 + (b - 48)) * 10 + (c - 48);
    assert n / 10 == (a - 48) * 10 + (b - 48) && n % 10 == c - 48;
    assert Dec(n) == Dec(n / 10) + [48 + n % 10];
  }

  lemma DecPart(n: nat)
    requires n < 256
    ensures Ipv4Part(Dec(n)) && 46 !in Dec(n)
  {
    DecReads(n);
    if n >= 10 {
      assert Dec(n) == Dec(n / 10) + [48 + n % 10];
      if n >= 100 {
        assert Dec(n / 10) == Dec(n / 100) + [48 + n / 10 % 10];
        assert n / 10 / 10 == n / 100 && Dec(n / 100) == [48 + n / 100];
      } else {
        assert Dec(n / 10) == [48 + n / 10];
      }
    }
  }

  lemma QuadIff(s: seq<Byte>)
    ensures IsIpv4(s) <==> Quad(s)
  {
    hide Dec, Ipv4Part, Split, JoinBy;
    var parts := Split(s, [DOT]);
    JoinOfSplit(s, DOT);
    if IsIpv4(s) {
      forall i | 0 <= i < 4
        ensures Digits(parts[i], 10).Some? && Digits(parts[i], 10).value < 256
        ensures parts[i] == Dec(Digits(parts[i], 10).value)
      {
        PartValue(parts[i]);
      }
      var a, b := Digits(parts[0], 10).value, Digits(parts[1], 10).value;
      var c, d := Digits(parts[2], 10).value, Digits(parts[3], 10).value;
      assert parts == [Dec(a), Dec(b), Dec(c), Dec(d)];
      assert QuadOf(s, a, b, c, d);
    }
    if Quad(s) {
      var a: nat, b: nat, c: nat, d: nat :| QuadOf(s, a, b, c, d);
      DecPart(a);
      DecPart(b);
      DecPart(c);
      DecPart(d);
      SplitOfJoin([Dec(a), Dec(b), Dec(c), Dec(d)], DOT);
    }
  }

  lemma PartValue(part: seq<Byte>)
    requires Ipv4Part(part)
    ensures Digits(part, 10).Some? && Digits(part, 10).value < 256 && part == Dec(Digits(part, 10).value)
  {
    PartIff(part);
  }

  // ---- The host of a name ----

  /** A name of a host: letters, digits, hyphens, underscores and dots, with a dot inside, and not an address. */
  ghost predicate IsHost(name: seq<Byte>) {
    && name != [] && name[|name| - 1] != 46 && 46 in name && !Quad(name)
    && forall b | b in name :: 65 <= b <= 90 || 97 <= b <= 122 || 48 <= b <= 57 || b == 45 || b == 95 || b == 46
  }

  /** Whether `raw` is `name` with any dots behind it and any white space around it, 253 octets at most. */
  ghost predicate Writes(raw: seq<Byte>, name: seq<Byte>) {
    |raw| <= 253 &&
    exists before: seq<seq<Byte>>, dots: nat, after: seq<seq<Byte>> :: WritesAs(raw, name, before, dots, after)
  }

  ghost predicate WritesAs(raw: seq<Byte>, name: seq<Byte>, before: seq<seq<Byte>>, dots: nat, after: seq<seq<Byte>>) {
    AllWhite(before) && AllWhite(after) && raw == Flatten(before) + (name + Dots(dots) + Flatten(after))
  }

  /** A name of a host, however it is written, is taken and comes out in small letters. */
  lemma HostTaken(raw: seq<Byte>, name: seq<Byte>)
    requires IsHost(name) && Writes(raw, name)
    ensures PlausibleHost(raw) == Some(Small(name))
  {
    hide IsWhite, ValidUtf8, TrimStart, TrimEnd, Quad, IsIpv4, WhiteHead, WhiteTail;
    var before: seq<seq<Byte>>, dots: nat, after: seq<seq<Byte>> :| WritesAs(raw, name, before, dots, after);
    var core := name + Dots(dots);
    assert name[0] in name && name[|name| - 1] in name;
    TrimsBefore(before, core + Flatten(after));
    VisibleFirst(core + Flatten(after));
    TrimsAfter(core, after);
    VisibleLast(core);
    DotsTrim(name, dots);
    QuadIff(name);
    NoUtf8();
    Utf8Front(after, []);
    assert Flatten(after) + [] == Flatten(after);
    Utf8Ascii(core, Flatten(after));
    Utf8Front(before, core + Flatten(after));
    assert Small(name) == LowerAll(name);
  }

  /** Whatever is taken is a name of a host so written. */
  lemma TakenIsHost(raw: seq<Byte>) returns (name: seq<Byte>)
    requires PlausibleHost(raw).Some?
    ensures IsHost(name) && Writes(raw, name) && PlausibleHost(raw) == Some(Small(name))
  {
    hide IsWhite, ValidUtf8, TrimStart, TrimEnd, Quad, IsIpv4, WhiteHead, WhiteTail, TrimDots;
    name := TrimDots(Trim(raw));
    var before := TrimmedBefore(raw);
    var after := TrimmedAfter(TrimStart(raw));
    var dots := DotsTrimmed(Trim(raw));
    assert WritesAs(raw, name, before, dots, after);
    QuadIff(name);
    assert Small(name) == LowerAll(name);
  }

  /** The sniffer gives `host` for `raw` exactly when `raw` writes the name of a host, and `host` is that name in
      small letters. */
  lemma HostIff(raw: seq<Byte>, host: seq<Byte>)
    ensures PlausibleHost(raw) == Some(host) <==>
            exists name :: IsHost(name) && Writes(raw, name) && host == Small(name)
  {
    hide PlausibleHost, IsHost, Writes;
    if PlausibleHost(raw) == Some(host) {
      var name := TakenIsHost(raw);
    }
    if name :| IsHost(name) && Writes(raw, name) && host == Small(name) {
      HostTaken(raw, name);
    }
  }

  // ---- The domains the resolver asks for ----

  /** A label of a domain: 1 to 63 letters, digits, hyphens and underscores. */
  predicate IsLabel(tag: seq<Byte>) {
    1 <= |tag| <= 63 && forall b | b in tag :: 65 <= b <= 90 || 97 <= b <= 122 || 48 <= b <= 57 || b == 45 || b == 95
  }

  /** Whether `name` is `labels` with dots between them, and perhaps one behind. */
  ghost predicate SpellsDomain(name: seq<Byte>, labels: seq<seq<Byte>>) {
    && labels != [] && (forall tag | tag in labels :: IsLabel(tag)) && |JoinBy(labels, 46)| <= 253
    && (name == JoinBy(labels, 46) || name == JoinBy(labels, 46) + [46])
  }

  lemma {:induction false} JoinEnds(labels: seq<seq<Byte>>)
    requires labels != [] && forall tag | tag in labels :: IsLabel(tag)
    ensures var s := JoinBy(labels, 46); s != [] && s[|s| - 1] != 46
    decreases |labels|
  {
    if |labels| == 1 {
      assert labels[0] in labels && labels[0][|labels[0]| - 1] in labels[0];
    } else {
      assert forall tag | tag in labels[1..] :: tag in labels;
      JoinEnds(labels[1..]);
    }
  }

  /** A domain is asked for exactly when it is labels with dots between them, 253 octets at most. */
  lemma DomainIff(name: seq<Byte>)
    ensures Dns.ValidDomain(name) <==> exists labels :: SpellsDomain(name, labels)
  {
    hide Split, JoinBy;
    if Dns.ValidDomain(name) {
      var bare := Dns.WithoutLastDot(name);
      JoinOfSplit(bare, 46);
      assert bare != name ==> name == bare + [46];
      assert SpellsDomain(name, Split(bare, [46]));
    }
    if labels :| SpellsDomain(name, labels) {
      JoinEnds(labels);
      var bare := JoinBy(labels, 46);
      assert (bare + [46])[..|bare|] == bare;
      SplitOfJoin(labels, 46);
    }
  }

  /** The name of `labels` on the wire, as section 3.1 of RFC 1035 has it. */
  function WireName(labels: seq<seq<Byte>>): seq<Byte>
    requires forall tag | tag in labels :: IsLabel(tag)
  {
    if labels == [] then [0]
    else
      assert labels[0] in labels && IsLabel(labels[0]);
      var length: Byte := |labels[0]|;
      [length] + labels[0] + WireName(labels[1..])
  }

  lemma {:induction false} LabelsOnWire(labels: seq<seq<Byte>>, last: seq<seq<Byte>>)
    requires (forall tag | tag in labels :: IsLabel(tag)) && (last == [] || last == [[]])
    ensures Dns.EncodeLabels(labels + last) + [0] == WireName(labels)
    decreases |labels|
  {
    if labels == [] {
      assert labels + last == last;
    } else {
      assert labels[0] in labels && forall tag | tag in labels[1..] :: tag in labels;
      assert (labels + last)[1..] == labels[1..] + last;
      LabelsOnWire(labels[1..], last);
    }
  }

  lemma {:induction false} JoinLastDot(labels: seq<seq<Byte>>)
    requires labels != []
    ensures JoinBy(labels + [[]], 46) == JoinBy(labels, 46) + [46]
    decreases |labels|
  {
    var all := labels + [[]];
    assert all[0] == labels[0] && all[1..] == labels[1..] + [[]];
    if |labels| == 1 {
      assert all[1..] == [[]] && JoinBy(all[1..], 46) == [];
      assert JoinBy(all, 46) == labels[0] + [46] + [];
    } else {
      JoinLastDot(labels[1..]);
      var head := labels[0] + [46];
      assert head + (JoinBy(labels[1..], 46) + [46]) == head + JoinBy(labels[1..], 46) + [46];
    }
  }

  /** The query for a domain: its id, the flag that asks for recursion, one question and nothing else; then the
      labels, each behind its length, the type and the class of the internet. */
  lemma AsksFor(id: nat, name: seq<Byte>, labels: seq<seq<Byte>>, qtype: nat)
    requires SpellsDomain(name, labels) && id < 0x1_0000 && qtype < 0x1_0000
    ensures Dns.Query(id, name, qtype) ==
            [id / 256, id % 256, 1, 0, 0, 1, 0, 0, 0, 0, 0, 0]
            + (WireName(labels) + [qtype / 256, qtype % 256, 0, 1])
  {
    hide Split, JoinBy, WireName, Dns.EncodeLabels;
    NoDots(labels);
    if name == JoinBy(labels, 46) {
      SplitOfJoin(labels, 46);
      LabelsOnWire(labels, []);
      assert labels + [] == labels;
    } else {
      JoinLastDot(labels);
      SplitOfJoin(labels + [[]], 46);
      LabelsOnWire(labels, [[]]);
    }
  }

  lemma NoDots(labels: seq<seq<Byte>>)
    requires forall tag | tag in labels :: IsLabel(tag)
    ensures forall tag | tag in labels :: 46 !in tag
    ensures forall tag | tag in labels + [[]] :: 46 !in tag
  {
  }
}
