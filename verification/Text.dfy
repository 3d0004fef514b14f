/** The text primitives of Rust's `str` that the parsers lean on, on UTF-8 octets. */
module Text {
  import opened Bytes

  const CR: Byte := 13
  const LF: Byte := 10
  const CRLF: seq<Byte> := [CR, LF]
  const DOT: Byte := 46

  predicate Cont(b: Byte) { 0x80 <= b <= 0xBF }

  /** The length of the well-formed UTF-8 character that starts `s`; 0 when there is none. */
  function CharLen(s: seq<Byte>): (n: nat)
    ensures n <= |s|
  {
    if s == [] then 0
    else if s[0] < 0x80 then 1
    else if |s| >= 2 && 0xC2 <= s[0] <= 0xDF && Cont(s[1]) then 2
    else if |s| >= 3 && 0xE0 <= s[0] <= 0xEF && Cont(s[1]) && Cont(s[2])
            && (s[0] == 0xE0 ==> s[1] >= 0xA0) && (s[0] == 0xED ==> s[1] <= 0x9F) then 3
    else if |s| >= 4 && 0xF0 <= s[0] <= 0xF4 && Cont(s[1]) && Cont(s[2]) && Cont(s[3])
            && (s[0] == 0xF0 ==> s[1] >= 0x90) && (s[0] == 0xF4 ==> s[1] <= 0x8F) then 4
    else 0
  }

  predicate ValidUtf8(s: seq<Byte>) {
    s == [] || (CharLen(s) > 0 && ValidUtf8(s[CharLen(s)..]))
  }

  /** Whether `c` is one character with the Unicode property White_Space. */
  predicate IsWhite(c: seq<Byte>) {
    || (|c| == 1 && (9 <= c[0] <= 13 || c[0] == 32))
    || (|c| == 2 && c[0] == 0xC2 && (c[1] == 0x85 || c[1] == 0xA0))
    || (|c| == 3 && c[0] == 0xE1 && c[1] == 0x9A && c[2] == 0x80)
    || (|c| == 3 && c[0] == 0xE2 && c[1] == 0x80
        && (0x80 <= c[2] <= 0x8A || c[2] == 0xA8 || c[2] == 0xA9 || c[2] == 0xAF))
    || (|c| == 3 && c[0] == 0xE2 && c[1] == 0x81 && c[2] == 0x9F)
    || (|c| == 3 && c[0] == 0xE3 && c[1] == 0x80 && c[2] == 0x80)
  }

  /** The length of the white-space character that starts `s`; 0 when none does. */
  function WhiteHead(s: seq<Byte>): (n: nat)
    ensures n <= |s|
  {
    if |s| >= 1 && IsWhite(s[..1]) then 1
    else if |s| >= 2 && IsWhite(s[..2]) then 2
    else if |s| >= 3 && IsWhite(s[..3]) then 3
    else 0
  }

  /** The length of the white-space character that ends `s`; 0 when none does. */
  function WhiteTail(s: seq<Byte>): (n: nat)
    ensures n <= |s|
  {
    if |s| >= 1 && IsWhite(s[|s| - 1..]) then 1
    else if |s| >= 2 && IsWhite(s[|s| - 2..]) then 2
    else if |s| >= 3 && IsWhite(s[|s| - 3..]) then 3
    else 0
  }

  function TrimStart(s: seq<Byte>): seq<Byte> {
    if WhiteHead(s) > 0 then TrimStart(s[WhiteHead(s)..]) else s
  }

  function TrimEnd(s: seq<Byte>): seq<Byte> {
    if WhiteTail(s) > 0 then TrimEnd(s[..|s| - WhiteTail(s)]) else s
  }

  function Trim(s: seq<Byte>): seq<Byte> { TrimEnd(TrimStart(s)) }

  function Lower(b: Byte): Byte { if 65 <= b <= 90 then b + 32 else b }

  function LowerAll(s: seq<Byte>): (r: seq<Byte>)
    ensures |r| == |s|
  {
    seq(|s|, i requires 0 <= i < |s| => Lower(s[i]))
  }

  /** What comes before the first `sep`, or all of `s`. */
  function Before(s: seq<Byte>, sep: Byte): seq<Byte> {
    var at := First(s, [sep], 0);
    if at.Some? then s[..at.value] else s
  }

  /** The pieces of `s` between the occurrences of `sep`. */
  function Split(s: seq<Byte>, sep: seq<Byte>): (parts: seq<seq<Byte>>)
    requires sep != []
    ensures |parts| > 0
    decreases |s|
  {
    var at := First(s, sep, 0);
    if at.None? then [s] else [s[..at.value]] + Split(s[at.value + |sep|..], sep)
  }

  /** The value of a digit in radix `radix`, at most 16. */
  function Digit(b: Byte, radix: nat): Option<nat> {
    var v := if 48 <= b <= 57 then b - 48
             else if 97 <= b <= 102 then b - 87
             else if 65 <= b <= 70 then b - 55
             else 16;
    if v < radix && v < 16 then Some(v) else None
  }

  function Digits(s: seq<Byte>, radix: nat): Option<nat> {
    if s == [] then Some(0)
    else
      var high, low := Digits(s[..|s| - 1], radix), Digit(s[|s| - 1], radix);
      if high.None? || low.None? then None else Some(high.value * radix + low.value)
  }

  /** An unsigned number of at most `max`, as `from_str_radix` reads it: one leading '+' may stand
      before the digits, of which there is at least one. */
  function ParseUnsigned(s: seq<Byte>, radix: nat, max: nat): Option<nat> {
    if s == [] then None
    else
      var digits := if s[0] == 43 && |s| > 1 then s[1..] else s;
      var v := Digits(digits, radix);
      if v.Some? && v.value <= max then v else None
  }

  function HexDigit(d: nat): Byte
    requires d < 16
  {
    if d < 10 then 48 + d else 87 + d
  }

  /** `n` in lower-case hexadecimal, without leading zeros. */
  function Hex(n: nat): (s: seq<Byte>)
    ensures s != [] && forall b | b in s :: 48 <= b <= 57 || 97 <= b <= 102
  {
    if n < 16 then [HexDigit(n)] else Hex(n / 16) + [HexDigit(n % 16)]
  }

  lemma {:induction false} DigitsOfHex(n: nat)
    ensures Digits(Hex(n), 16) == Some(n)
  {
    var s := Hex(n);
    if n < 16 {
      assert Digits(s[..0], 16) == Some(0);
    } else {
      DigitsOfHex(n / 16);
      assert s[..|s| - 1] == Hex(n / 16);
    }
  }

  lemma {:induction false} AsciiIsUtf8(s: seq<Byte>)
    requires forall b | b in s :: b < 0x80
    ensures ValidUtf8(s)
  {
    if s != [] {
      assert s[0] in s && forall b | b in s[1..] :: b in s;
      AsciiIsUtf8(s[1..]);
    }
  }

  /** A number in decimal. */
  function Dec(n: nat): (s: seq<Byte>)
    ensures s != [] && forall b | b in s :: 48 <= b <= 57
  {
    if n < 10 then [48 + n] else Dec(n / 10) + [48 + n % 10]
  }

  lemma {:induction false} DecReads(n: nat)
    ensures Digits(Dec(n), 10) == Some(n)
  {
    var s := Dec(n);
    if n < 10 {
      assert s[..0] == [] && Digits(s[..0], 10) == Some(0);
    } else {
      DecReads(n / 10);
      assert s[..|s| - 1] == Dec(n / 10);
    }
  }


  // ---- Parts between separators ----

  /** Parts with `sep` between them. */
  function JoinBy(parts: seq<seq<Byte>>, sep: Byte): seq<Byte>
    requires parts != []
  {
    if |parts| == 1 then parts[0] else parts[0] + [sep] + JoinBy(parts[1..], sep)
  }

  lemma FirstOne(s: seq<Byte>, sep: Byte, at: nat)
    requires at < |s| && s[at] == sep && sep !in s[..at]
    ensures First(s, [sep], 0) == Some(at)
  {
    forall j: nat | j < at
      ensures !Matches(s, [sep], j)
    {
      assert s[j..j + 1] == [s[j]] && s[..at][j] == s[j];
    }
    assert s[at..at + 1] == [sep];
    FirstFrom(s, [sep], 0, at);
    assert First(s, [sep], at) == Some(at);
  }

  lemma FirstNone(s: seq<Byte>, sep: Byte)
    ensures sep !in s <==> First(s, [sep], 0).None?
  {
    if sep in s {
      var i :| 0 <= i < |s| && s[i] == sep;
      assert Matches(s, [sep], i);
    } else {
      forall j: nat
        ensures !Matches(s, [sep], j)
      {
        if j < |s| {
          assert s[j..j + 1] == [s[j]];
        }
      }
    }
  }

  lemma {:induction false} SplitOfJoin(parts: seq<seq<Byte>>, sep: Byte)
    requires parts != [] && forall p | p in parts :: sep !in p
    ensures Split(JoinBy(parts, sep), [sep]) == parts
    decreases |parts|
  {
    hide First;
    var s := JoinBy(parts, sep);
    assert parts[0] in parts;
    if |parts| == 1 {
      FirstNone(s, sep);
      assert parts == [parts[0]];
    } else {
      assert forall p | p in parts[1..] :: p in parts;
      SplitOfJoin(parts[1..], sep);
      var at := |parts[0]|;
      assert s[..at] == parts[0] && s[at + 1..] == JoinBy(parts[1..], sep);
      FirstOne(s, sep, at);
      assert [parts[0]] + parts[1..] == parts;
    }
  }

  lemma {:induction false} JoinOfSplit(s: seq<Byte>, sep: Byte)
    ensures JoinBy(Split(s, [sep]), sep) == s && forall p | p in Split(s, [sep]) :: sep !in p
    decreases |s|
  {
    hide First;
    FirstNone(s, sep);
    var at := First(s, [sep], 0);
    if at.Some? {
      var i := at.value;
      FirstNone(s[..i], sep);
      NoneBefore(s, sep, i);
      var rest := s[i + 1..];
      JoinOfSplit(rest, sep);
      var parts := Split(s, [sep]);
      assert parts[1..] == Split(rest, [sep]);
      assert s[i..i + 1] == [sep] && s == s[..i] + [sep] + rest;
    }
  }

  lemma NoneBefore(s: seq<Byte>, sep: Byte, i: nat)
    requires First(s, [sep], 0) == Some(i)
    ensures i < |s| && s[i] == sep && sep !in s[..i]
  {
    hide First, Matches;
    MatchesOne(s, sep, i);
    forall j: nat | j < i
      ensures s[j] != sep
    {
      MatchesOne(s, sep, j);
    }
  }

  lemma MatchesOne(s: seq<Byte>, sep: Byte, i: nat)
    ensures Matches(s, [sep], i) <==> i < |s| && s[i] == sep
  {
    if i < |s| {
      assert s[i..i + 1] == [s[i]];
    }
  }
}
