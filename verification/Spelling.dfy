/** How text is written: characters in UTF-8, white space, letters of either case and numbers. */
module Spelling {
  import opened Bytes
  import opened Text

  // ---- Characters ----

  /** A Unicode scalar value: a code point that is no surrogate. */
  predicate Scalar(p: nat) { p < 0xD800 || 0xE000 <= p < 0x11_0000 }

  /** The UTF-8 form of a code point, as section 3 of RFC 3629 has it. */
  function Utf8(p: nat): seq<Byte>
    requires Scalar(p)
  {
    if p < 0x80 then [p]
    else if p < 0x800 then [0xC0 + p / 64, 0x80 + p % 64]
    else if p < 0x1_0000 then [0xE0 + p / 4096, 0x80 + p / 64 % 64, 0x80 + p % 64]
    else [0xF0 + p / 262_144, 0x80 + p / 4096 % 64, 0x80 + p / 64 % 64, 0x80 + p % 64]
  }

  function Utf8All(ps: seq<nat>): seq<Byte>
    requires forall p | p in ps :: Scalar(p)
  {
    if ps == [] then [] else Utf8(ps[0]) + Utf8All(ps[1..])
  }

  /** A character is recognised at its full length, whatever follows. */
  lemma CharTaken(p: nat, rest: seq<Byte>)
    requires Scalar(p)
    ensures Utf8(p) != [] && CharLen(Utf8(p) + rest) == |Utf8(p)| && (Utf8(p) + rest)[|Utf8(p)|..] == rest
  {
    var c, s := Utf8(p), Utf8(p) + rest;
    assert s[0] == c[0] && (|c| > 1 ==> s[1] == c[1]) && (|c| > 2 ==> s[2] == c[2]) && (|c| > 3 ==> s[3] == c[3]);
  }

  lemma TwoOctets(a: nat, b: nat)
    requires 2 <= a < 32 && b < 64
    ensures var p := a * 64 + b; Scalar(p) && Utf8(p) == [0xC0 + a, 0x80 + b]
  {
  }

  lemma ThreeOctets(a: nat, b: nat, c: nat)
    requires a < 16 && b < 64 && c < 64 && (a == 0 ==> b >= 32) && (a == 13 ==> b < 32)
    ensures var p := a * 4096 + b * 64 + c; Scalar(p) && Utf8(p) == [0xE0 + a, 0x80 + b, 0x80 + c]
  {
    var p := a * 4096 + b * 64 + c;
    assert p / 4096 == a && p / 64 == a * 64 + b && p % 64 == c;
  }

  lemma FourOctets(a: nat, b: nat, c: nat, d: nat)
    requires a < 5 && b < 64 && c < 64 && d < 64 && (a == 0 ==> b >= 16) && (a == 4 ==> b < 16)
    ensures var p := a * 262_144 + b * 4096 + c * 64 + d;
            Scalar(p) && Utf8(p) == [0xF0 + a, 0x80 + b, 0x80 + c, 0x80 + d]
  {
    var p := a * 262_144 + b * 4096 + c * 64 + d;
    assert p / 262_144 == a && p / 4096 == a * 64 + b && p / 64 == (a * 64 + b) * 64 + c && p % 64 == d;
  }

  /** What is recognised is a character. */
  lemma TakenChar(s: seq<Byte>) returns (p: nat)
    requires CharLen(s) > 0
    ensures Scalar(p) && s[..CharLen(s)] == Utf8(p)
  {
    hide Utf8, Scalar;
    var n := CharLen(s);
    if n == 1 {
      p := s[0];
      OneOctet(p);
      assert s[..1] == [p];
    } else if n == 2 {
      var a: nat, b: nat := s[0] - 0xC0, s[1] - 0x80;
      TwoOctets(a, b);
      p := a * 64 + b;
      assert s[..2] == [0xC0 + a, 0x80 + b];
    } else if n == 3 {
      var a: nat, b: nat, c: nat := s[0] - 0xE0, s[1] - 0x80, s[2] - 0x80;
      ThreeOctets(a, b, c);
      p := a * 4096 + b * 64 + c;
      assert s[..3] == [0xE0 + a, 0x80 + b, 0x80 + c];
    } else {
      var a: nat, b: nat, c: nat, d: nat := s[0] - 0xF0, s[1] - 0x80, s[2] - 0x80, s[3] - 0x80;
      FourOctets(a, b, c, d);
      p := a * 262_144 + b * 4096 + c * 64 + d;
      assert s[..4] == [0xF0 + a, 0x80 + b, 0x80 + c, 0x80 + d];
    }
  }

  lemma OneOctet(a: nat)
    requires a < 0x80
    ensures Scalar(a) && Utf8(a) == [a]
  {
  }

  ghost predicate WritesAll(s: seq<Byte>, ps: seq<nat>) { (forall p | p in ps :: Scalar(p)) && s == Utf8All(ps) }

  /** Octets are valid UTF-8 exactly when they write code points. */
  lemma {:induction false} Utf8Iff(s: seq<Byte>)
    ensures ValidUtf8(s) <==> exists ps :: WritesAll(s, ps)
  {
    if ValidUtf8(s) {
      var ps := Utf8Read(s);
    }
    if ps :| WritesAll(s, ps) {
      Utf8Valid(ps);
    }
  }

  lemma {:induction false} Utf8Valid(ps: seq<nat>)
    requires forall p | p in ps :: Scalar(p)
    ensures ValidUtf8(Utf8All(ps))
  {
    hide Utf8, CharLen;
    if ps != [] {
      assert ps[0] in ps && forall p | p in ps[1..] :: p in ps;
      Utf8Valid(ps[1..]);
      CharTaken(ps[0], Utf8All(ps[1..]));
    }
  }

  lemma {:induction false} Utf8Read(s: seq<Byte>) returns (ps: seq<nat>)
    requires ValidUtf8(s)
    ensures WritesAll(s, ps)
    decreases |s|
  {
    hide Utf8, CharLen;
    if s == [] {
      ps := [];
    } else {
      var n := CharLen(s);
      var p := TakenChar(s);
      var more := Utf8Read(s[n..]);
      ps := [p] + more;
      assert ps[1..] == more && s == s[..n] + s[n..];
    }
  }

  // ---- White space ----

  /** The code points with the Unicode property White_Space. */
  predicate Space(p: nat) {
    || 0x9 <= p <= 0xD || p == 0x20 || p == 0x85 || p == 0xA0 || p == 0x1680 || 0x2000 <= p <= 0x200A
    || p == 0x2028 || p == 0x2029 || p == 0x202F || p == 0x205F || p == 0x3000
  }

  lemma WhiteIff(c: seq<Byte>)
    ensures IsWhite(c) <==> exists p: nat :: Space(p) && c == Utf8(p)
  {
    if IsWhite(c) {
      var p := TakenChar(c);
      assert c[..CharLen(c)] == c;
      SpaceOf(c, p);
    }
    if p: nat :| Space(p) && c == Utf8(p) {
      WhiteOf(p);
    }
  }

  lemma WhiteOf(p: nat)
    requires Space(p)
    ensures IsWhite(Utf8(p))
  {
  }

  lemma SpaceOf(c: seq<Byte>, p: nat)
    requires IsWhite(c) && Scalar(p) && c == Utf8(p)
    ensures Space(p)
  {
  }

  /** Characters of white space, one after the other. */
  ghost predicate AllWhite(cs: seq<seq<Byte>>) { forall c | c in cs :: IsWhite(c) }

  lemma WhiteFirst(c: seq<Byte>, rest: seq<Byte>)
    requires IsWhite(c)
    ensures WhiteHead(c + rest) == |c| && CharLen(c + rest) == |c| && (c + rest)[|c|..] == rest
  {
    var s := c + rest;
    assert s[0] == c[0] && (|c| > 1 ==> s[1] == c[1]) && (|c| > 2 ==> s[2] == c[2]);
    assert s[..|c|] == c;
    assert s[..1] == [s[0]] && (|s| >= 2 ==> s[..2] == [s[0], s[1]]);
  }

  lemma WhiteLast(rest: seq<Byte>, c: seq<Byte>)
    requires IsWhite(c)
    ensures WhiteTail(rest + c) == |c| && (rest + c)[..|rest|] == rest
  {
    var s := rest + c;
    assert s[|s| - |c|..] == c;
    assert s[|s| - 1..] == [c[|c| - 1]];
    if |c| > 1 {
      assert s[|s| - 2..] == [c[|c| - 2], c[|c| - 1]];
    }
    WhiteAlone(c);
  }

  /** No end of a character of white space is one. */
  lemma WhiteAlone(c: seq<Byte>)
    requires IsWhite(c)
    ensures |c| > 1 ==> !IsWhite([c[|c| - 1]])
    ensures |c| > 2 ==> !IsWhite([c[|c| - 2], c[|c| - 1]])
  {
  }

  lemma {:induction false} TrimsBefore(cs: seq<seq<Byte>>, x: seq<Byte>)
    requires AllWhite(cs)
    ensures TrimStart(Flatten(cs) + x) == TrimStart(x)
    decreases |cs|
  {
    hide IsWhite, WhiteHead;
    if cs == [] {
      assert Flatten(cs) + x == x;
    } else {
      var c, rest := cs[0], Flatten(cs[1..]) + x;
      assert c in cs && forall d | d in cs[1..] :: d in cs;
      assert Flatten(cs) + x == c + rest;
      WhiteFirst(c, rest);
      NotEmpty(c);
      TrimsBefore(cs[1..], x);
    }
  }

  lemma NotEmpty(c: seq<Byte>)
    requires IsWhite(c)
    ensures c != []
  {
  }

  lemma {:induction false} TrimsAfter(x: seq<Byte>, cs: seq<seq<Byte>>)
    requires AllWhite(cs)
    ensures TrimEnd(x + Flatten(cs)) == TrimEnd(x)
    decreases |cs|
  {
    hide IsWhite, WhiteTail;
    if cs == [] {
      assert x + Flatten(cs) == x;
    } else {
      var init, c := cs[..|cs| - 1], cs[|cs| - 1];
      assert c in cs && forall d | d in init :: d in cs;
      FlattenAppend(init, [c]);
      assert cs == init + [c] && Flatten([c]) == c + Flatten<Byte>([]) == c;
      assert x + Flatten(cs) == x + Flatten(init) + c;
      WhiteLast(x + Flatten(init), c);
      NotEmpty(c);
      TrimsAfter(x, init);
    }
  }

  /** What is trimmed is white space. */
  lemma {:induction false} TrimmedBefore(s: seq<Byte>) returns (cs: seq<seq<Byte>>)
    ensures AllWhite(cs) && s == Flatten(cs) + TrimStart(s)
    decreases |s|
  {
    hide IsWhite, WhiteHead, TrimStart, Flatten;
    var n := WhiteHead(s);
    if n == 0 {
      cs := [];
      NoHead(s);
      NoParts();
      assert [] + s == s;
    } else {
      HeadIsWhite(s);
      HeadStep(s);
      var more := TrimmedBefore(s[n..]);
      cs := [s[..n]] + more;
      FlattenFirst(s[..n], more);
      assert s == s[..n] + s[n..];
      assert s[..n] + Flatten(more) + TrimStart(s[n..]) == s[..n] + (Flatten(more) + TrimStart(s[n..]));
    }
  }

  lemma NoHead(s: seq<Byte>)
    requires WhiteHead(s) == 0
    ensures TrimStart(s) == s
  {
    hide WhiteHead;
  }

  lemma HeadStep(s: seq<Byte>)
    requires WhiteHead(s) > 0
    ensures TrimStart(s) == TrimStart(s[WhiteHead(s)..])
  {
    hide WhiteHead;
  }

  lemma FlattenFirst(c: seq<Byte>, more: seq<seq<Byte>>)
    ensures Flatten([c] + more) == c + Flatten(more)
  {
    assert ([c] + more)[1..] == more;
  }

  lemma HeadIsWhite(s: seq<Byte>)
    requires WhiteHead(s) > 0
    ensures IsWhite(s[..WhiteHead(s)])
  {
    hide IsWhite;
  }

  lemma TailIsWhite(s: seq<Byte>)
    requires WhiteTail(s) > 0
    ensures IsWhite(s[|s| - WhiteTail(s)..])
  {
    hide IsWhite;
  }

  lemma {:induction false} TrimmedAfter(s: seq<Byte>) returns (cs: seq<seq<Byte>>)
    ensures AllWhite(cs) && s == TrimEnd(s) + Flatten(cs)
    decreases |s|
  {
    hide IsWhite, WhiteTail, TrimEnd, Flatten;
    var n := WhiteTail(s);
    if n == 0 {
      cs := [];
      NoTail(s);
      NoParts();
      assert s + [] == s;
    } else {
      TailIsWhite(s);
      var rest, c := s[..|s| - n], s[|s| - n..];
      TailStep(s);
      var fewer := TrimmedAfter(rest);
      cs := fewer + [c];
      FlattenLast(fewer, c);
      assert s == rest + c;
      assert TrimEnd(rest) + Flatten(fewer) + c == TrimEnd(rest) + (Flatten(fewer) + c);
    }
  }

  lemma NoParts()
    ensures Flatten<Byte>([]) == []
  {
  }

  lemma FlattenLast(init: seq<seq<Byte>>, c: seq<Byte>)
    ensures Flatten(init + [c]) == Flatten(init) + c
  {
    FlattenAppend(init, [c]);
    assert Flatten([c]) == c + Flatten<Byte>([]) == c;
  }

  lemma TailStep(s: seq<Byte>)
    requires WhiteTail(s) > 0
    ensures TrimEnd(s) == TrimEnd(s[..|s| - WhiteTail(s)])
  {
    hide WhiteTail;
  }

  lemma {:induction false} Utf8Front(cs: seq<seq<Byte>>, rest: seq<Byte>)
    requires AllWhite(cs) && ValidUtf8(rest)
    ensures ValidUtf8(Flatten(cs) + rest)
    decreases |cs|
  {
    hide IsWhite, ValidUtf8;
    if cs == [] {
      assert Flatten(cs) + rest == rest;
    } else {
      assert cs[0] in cs && forall d | d in cs[1..] :: d in cs;
      Utf8Front(cs[1..], rest);
      var tail := Flatten(cs[1..]) + rest;
      assert Flatten(cs) + rest == cs[0] + tail;
      Utf8Char(cs[0], tail);
    }
  }

  lemma Utf8Char(c: seq<Byte>, rest: seq<Byte>)
    requires IsWhite(c) && ValidUtf8(rest)
    ensures ValidUtf8(c + rest)
  {
    hide IsWhite, CharLen, WhiteHead;
    WhiteFirst(c, rest);
    NotEmpty(c);
  }

  lemma {:induction false} Utf8Ascii(a: seq<Byte>, rest: seq<Byte>)
    requires (forall b | b in a :: b < 0x80) && ValidUtf8(rest)
    ensures ValidUtf8(a + rest)
    decreases |a|
  {
    if a == [] {
      assert a + rest == rest;
    } else {
      assert a[0] in a && (a + rest)[0] == a[0] && (a + rest)[1..] == a[1..] + rest;
      assert forall b | b in a[1..] :: b in a;
      Utf8Ascii(a[1..], rest);
    }
  }

  lemma NoUtf8()
    ensures ValidUtf8([])
  {
  }

  lemma VisibleFirst(s: seq<Byte>)
    requires s != [] && 32 < s[0] < 127
    ensures TrimStart(s) == s
  {
  }

  lemma VisibleLast(s: seq<Byte>)
    requires s != [] && 32 < s[|s| - 1] < 127
    ensures TrimEnd(s) == s
  {
    hide TrimEnd, WhiteTail;
    NoWhiteTail(s);
    NoTail(s);
  }

  lemma NoWhiteTail(s: seq<Byte>)
    requires s != [] && 32 < s[|s| - 1] < 127
    ensures WhiteTail(s) == 0
  {
    hide IsWhite;
    forall at | 0 <= at < |s|
      ensures !IsWhite(s[at..])
    {
      var end := s[at..];
      assert end[|end| - 1] == s[|s| - 1];
      NotWhite(end);
    }
  }

  lemma NotWhite(c: seq<Byte>)
    requires c != [] && 32 < c[|c| - 1] < 127
    ensures !IsWhite(c)
  {
  }

  lemma NoTail(s: seq<Byte>)
    requires WhiteTail(s) == 0
    ensures TrimEnd(s) == s
  {
    hide WhiteTail;
  }

  // ---- Letters ----

  /** `name` with its capitals made small. */
  function Small(name: seq<Byte>): seq<Byte> {
    seq(|name|, i requires 0 <= i < |name| => if 65 <= name[i] <= 90 then name[i] + 32 else name[i])
  }

  // ---- Numbers ----

  function Zeros(k: nat): seq<Byte> { seq(k, _ => 48) }

  /** Whether `s` writes `n` in hexadecimal: its digits in letters of either case, behind any zeros. */
  ghost predicate WritesHex(s: seq<Byte>, n: nat) { exists k: nat :: Small(s) == Zeros(k) + Hex(n) }

  lemma {:induction false} SmallDigits(s: seq<Byte>)
    ensures Digits(Small(s), 16) == Digits(s, 16)
  {
    if s != [] {
      SmallDigits(s[..|s| - 1]);
      assert Small(s)[..|s| - 1] == Small(s[..|s| - 1]);
    }
  }

  lemma {:induction false} ZerosLead(k: nat, s: seq<Byte>)
    ensures Digits(Zeros(k) + s, 16) == Digits(s, 16)
    decreases k + |s|
  {
    var t := Zeros(k) + s;
    if s != [] {
      ZerosLead(k, s[..|s| - 1]);
      assert t[..|t| - 1] == Zeros(k) + s[..|s| - 1];
    } else if k > 0 {
      ZerosLead(k - 1, []);
      assert t[..|t| - 1] == Zeros(k - 1) + [];
    }
  }

  lemma {:induction false} HexRead(s: seq<Byte>) returns (k: nat)
    requires s != [] && Digits(s, 16).Some? && s == Small(s)
    ensures s == Zeros(k) + Hex(Digits(s, 16).value)
    decreases |s|
  {
    var init, low := s[..|s| - 1], Digit(s[|s| - 1], 16).value;
    var n := Digits(s, 16).value;
    assert s == init + [s[|s| - 1]] && s[|s| - 1] == Small(s)[|s| - 1] == HexDigit(low);
    if init == [] {
      k := 0;
      assert n == low;
    } else {
      assert Small(init) == init;
      var j := HexRead(init);
      var m := Digits(init, 16).value;
      assert n == m * 16 + low && n / 16 == m && n % 16 == low;
      if m == 0 {
        k := j + 1;
        assert Zeros(j) + [48] == Zeros(k);
      } else {
        k := j;
        assert Zeros(j) + Hex(m) + [HexDigit(low)] == Zeros(j) + (Hex(m) + [HexDigit(low)]);
      }
    }
  }

  /** The digits of `s` read as `n` exactly when `s` writes `n` in hexadecimal. */
  lemma HexIff(s: seq<Byte>, n: nat)
    requires s != []
    ensures Digits(s, 16) == Some(n) <==> WritesHex(s, n)
  {
    hide Digits, Hex;
    SmallDigits(s);
    if Digits(s, 16) == Some(n) {
      assert Small(Small(s)) == Small(s);
      var k := HexRead(Small(s));
    }
    if k: nat :| Small(s) == Zeros(k) + Hex(n) {
      ZerosLead(k, Hex(n));
      DigitsOfHex(n);
    }
  }
}
