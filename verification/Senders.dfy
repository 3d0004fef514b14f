/** Answers from the sender's side: status lines and header fields as they are written, and where an answer
    that starts with them ends (section 6.3 of RFC 9112), however the connection cuts it. */
module Senders {
  import opened Bytes
  import opened Text
  import opened Spelling
  import Dechunk
  import C = Chunked
  import opened Http1
  import Answers

  // ---- What is written ----

  /** The octets of a word of ASCII. */
  function Ascii(word: string): seq<Byte> { seq(|word|, i requires 0 <= i < |word| => Code(word[i])) }

  function Code(c: char): Byte { if c < 128 as char then c as int else 0 }

  /** The spaces and tabs around the value of a field. */
  datatype Pad = Pad(before: seq<Byte>, after: seq<Byte>)

  /** The head of an answer: its status line and its fields, with what is around the value of each. */
  datatype Sent = Sent(version: seq<Byte>, status: nat, reason: seq<Byte>, fields: seq<Field>, pads: seq<Pad>)

  predicate Visible(b: Byte) { 32 < b < 127 }

  predicate ValidName(name: seq<Byte>) { name != [] && 58 !in name && forall b | b in name :: Visible(b) }

  ghost predicate ValidValue(value: seq<Byte>) {
    C.Plain(value) && (value != [] ==> Visible(value[0]) && Visible(value[|value| - 1]))
  }

  ghost predicate Valid(h: Sent) {
    && h.version != [] && (forall b | b in h.version :: Visible(b)) && h.status <= 0xFFFF && C.Plain(h.reason)
    && (forall f | f in h.fields :: ValidName(f.name) && ValidValue(f.value))
    && forall p | p in h.pads :: Blank(p.before) && Blank(p.after)
  }

  predicate Blank(s: seq<Byte>) { forall b | b in s :: b == 32 || b == 9 }

  function StatusLine(h: Sent): seq<Byte> { h.version + [32] + (Dec(h.status) + [32] + h.reason) }

  function FieldLine(f: Field, p: Pad): seq<Byte> { f.name + [58] + (p.before + (f.value + p.after)) }

  /** What is around the value of field `i`: one space before it when nothing is said. */
  function PadOf(pads: seq<Pad>, i: nat): Pad { if i < |pads| then pads[i] else Pad([32], []) }

  function FieldLines(fields: seq<Field>, pads: seq<Pad>): seq<seq<Byte>> {
    seq(|fields|, i requires 0 <= i < |fields| => FieldLine(fields[i], PadOf(pads, i)))
  }

  function Lines(h: Sent): seq<seq<Byte>> { [StatusLine(h)] + FieldLines(h.fields, h.pads) }

  function Join(lines: seq<seq<Byte>>): seq<Byte>
    requires lines != []
  {
    if |lines| == 1 then lines[0] else lines[0] + [13, 10] + Join(lines[1..])
  }

  function EncodeHead(h: Sent): seq<Byte> { Join(Lines(h)) + BLANK_LINE }

  /** Interim heads, then the final one. */
  function EncodeHeads(interims: seq<Sent>, h: Sent): seq<Byte> {
    if interims == [] then EncodeHead(h) else EncodeHead(interims[0]) + EncodeHeads(interims[1..], h)
  }

  /** An interim head has a status of 100 to 199, but not 101. */
  predicate IsInterim(status: nat) { 100 <= status <= 199 && status != 101 }

  ghost predicate ValidHeads(interims: seq<Sent>, h: Sent) {
    Valid(h) && !IsInterim(h.status) && forall i | i in interims :: Valid(i) && IsInterim(i.status)
  }

  // ---- Numbers and words ----

  lemma DecParses(n: nat, max: nat)
    ensures ParseUnsigned(Dec(n), 10, max) == if n <= max then Some(n) else None
  {
    hide Dec, Digits;
    DecReads(n);
    assert Dec(n)[0] in Dec(n);
  }

  /** Whether `s` is `word`, which has no capitals, in whatever case its letters are written. */
  ghost predicate Spells(s: seq<Byte>, word: string) {
    |s| == |word| &&
    forall i | 0 <= i < |s| :: s[i] == word[i] as int || ('a' <= word[i] <= 'z' && s[i] == word[i] as int - 32)
  }

  lemma SpellsLower(s: seq<Byte>, word: string)
    requires forall c | c in word :: c < 128 as char && !('A' <= c <= 'Z')
    ensures Spells(s, word) <==> LowerAll(s) == Ascii(word)
  {
    if |s| == |word| {
      forall i | 0 <= i < |s|
        ensures LowerAll(s)[i] == Ascii(word)[i] <==>
                s[i] == word[i] as int || ('a' <= word[i] <= 'z' && s[i] == word[i] as int - 32)
      {
        assert word[i] in word;
      }
      assert LowerAll(s) == Ascii(word) <==> forall i | 0 <= i < |s| :: LowerAll(s)[i] == Ascii(word)[i];
    }
  }

  /** Whether `word` stands somewhere in `s`, in whatever case. */
  ghost predicate Holds(s: seq<Byte>, word: string) {
    exists i :: HoldsAt(s, word, i)
  }

  ghost predicate HoldsAt(s: seq<Byte>, word: string, i: nat) {
    i + |word| <= |s| && Spells(s[i..i + |word|], word)
  }

  const TRANSFER := "transfer-encoding"
  const LENGTH := "content-length"
  const CODING := "chunked"

  lemma Words()
    ensures TRANSFER_ENCODING == Ascii(TRANSFER) && CONTENT_LENGTH == Ascii(LENGTH) && CHUNKED == Ascii(CODING)
  {
  }

  lemma HoldsIff(s: seq<Byte>)
    ensures Holds(s, CODING) <==> First(LowerAll(s), CHUNKED, 0).Some?
  {
    Words();
    var low := LowerAll(s);
    forall i: nat
      ensures HoldsAt(s, CODING, i) <==> Matches(low, CHUNKED, i)
    {
      if i + |CODING| <= |s| {
        SpellsLower(s[i..i + |CODING|], CODING);
        assert LowerAll(s[i..i + |CODING|]) == low[i..i + |CODING|];
      }
    }
    if First(low, CHUNKED, 0).Some? {
      assert HoldsAt(s, CODING, First(low, CHUNKED, 0).value);
    }
  }

  /** Whether the first field of that name has value `v`. */
  ghost predicate FirstField(fields: seq<Field>, word: string, v: seq<Byte>) {
    exists i :: 0 <= i < |fields| && Spells(fields[i].name, word) && fields[i].value == v
                && forall k | 0 <= k < i :: !Spells(fields[k].name, word)
  }

  ghost predicate NoField(fields: seq<Field>, word: string) { forall f | f in fields :: !Spells(f.name, word) }

  lemma {:induction false} NamedIs(fields: seq<Field>, word: string)
    requires forall c | c in word :: c < 128 as char && !('A' <= c <= 'Z')
    ensures match FieldNamed(fields, Ascii(word))
            case Some(v) => FirstField(fields, word, v) && !NoField(fields, word)
            case None => NoField(fields, word)
    ensures forall v :: FirstField(fields, word, v) ==> FieldNamed(fields, Ascii(word)) == Some(v)
  {
    hide Spells, LowerAll;
    if fields != [] {
      SpellsLower(fields[0].name, word);
      assert fields[0] in fields;
      if !Spells(fields[0].name, word) {
        NamedIs(fields[1..], word);
        FieldShift(fields, word);
      }
    }
  }

  lemma FieldShift(fields: seq<Field>, word: string)
    requires fields != [] && !Spells(fields[0].name, word)
    ensures forall v :: FirstField(fields, word, v) <==> FirstField(fields[1..], word, v)
    ensures NoField(fields, word) <==> NoField(fields[1..], word)
  {
    hide Spells;
    var rest := fields[1..];
    forall v
      ensures FirstField(fields, word, v) <==> FirstField(rest, word, v)
    {
      if FirstField(fields, word, v) {
        var i :| 0 <= i < |fields| && Spells(fields[i].name, word) && fields[i].value == v
                 && forall k | 0 <= k < i :: !Spells(fields[k].name, word);
        assert rest[i - 1] == fields[i];
        forall k | 0 <= k < i - 1
          ensures !Spells(rest[k].name, word)
        {
          assert rest[k] == fields[k + 1];
        }
      }
      if FirstField(rest, word, v) {
        var i :| 0 <= i < |rest| && Spells(rest[i].name, word) && rest[i].value == v
                 && forall k | 0 <= k < i :: !Spells(rest[k].name, word);
        assert fields[i + 1] == rest[i];
        forall k | 0 <= k < i + 1
          ensures !Spells(fields[k].name, word)
        {
          assert k > 0 ==> fields[k] == rest[k - 1];
        }
      }
    }
    assert fields == [fields[0]] + rest;
  }

  // ---- Lines ----

  lemma PlainConcat(a: seq<Byte>, b: seq<Byte>)
    requires C.Plain(a) && C.Plain(b) && (a != [] ==> a[|a| - 1] != CR)
    ensures C.Plain(a + b)
  {
    forall j: nat
      ensures !Matches(a + b, CRLF, j)
    {
      if j + 2 <= |a + b| {
        assert (a + b)[j..j + 2] == [(a + b)[j], (a + b)[j + 1]];
        if j + 2 <= |a| {
          assert a[j..j + 2] == [(a + b)[j], (a + b)[j + 1]] && !Matches(a, CRLF, j);
        } else if j >= |a| {
          assert b[j - |a|..j - |a| + 2] == [(a + b)[j], (a + b)[j + 1]] && !Matches(b, CRLF, j - |a|);
        }
      }
    }
  }

  lemma VisiblePlain(a: seq<Byte>)
    requires CR !in a
    ensures C.Plain(a) && (a != [] ==> a[|a| - 1] != CR)
  {
    C.NotIn(a, CRLF);
    assert a != [] ==> a[|a| - 1] in a;
  }

  lemma LinesPlain(h: Sent)
    requires Valid(h)
    ensures forall l | l in Lines(h) :: C.Plain(l) && l != []
  {
    hide C.Plain, Dec;
    var front, number := h.version + [32], Dec(h.status) + [32];
    VisiblePlain(front);
    VisiblePlain(number);
    PlainConcat(number, h.reason);
    PlainConcat(front, number + h.reason);
    forall l | l in FieldLines(h.fields, h.pads)
      ensures C.Plain(l) && l != []
    {
      var i :| 0 <= i < |h.fields| && l == FieldLine(h.fields[i], PadOf(h.pads, i));
      assert h.fields[i] in h.fields;
      PadBlank(h.pads, i);
      FieldPlain(h.fields[i], PadOf(h.pads, i));
    }
  }

  lemma PadBlank(pads: seq<Pad>, i: nat)
    requires forall p | p in pads :: Blank(p.before) && Blank(p.after)
    ensures var p := PadOf(pads, i); Blank(p.before) && Blank(p.after)
  {
  }

  lemma FieldPlain(f: Field, p: Pad)
    requires ValidName(f.name) && ValidValue(f.value) && Blank(p.before) && Blank(p.after)
    ensures C.Plain(FieldLine(f, p)) && FieldLine(f, p) != []
  {
    hide C.Plain;
    VisiblePlain(f.name + [58]);
    VisiblePlain(p.before);
    VisiblePlain(p.after);
    PlainConcat(f.value, p.after);
    PlainConcat(p.before, f.value + p.after);
    PlainConcat(f.name + [58], p.before + (f.value + p.after));
  }

  lemma {:induction false} SplitJoin(lines: seq<seq<Byte>>)
    requires lines != [] && forall l | l in lines :: C.Plain(l)
    ensures Split(Join(lines), CRLF) == lines
    decreases |lines|
  {
    hide First;
    assert lines[0] in lines;
    if |lines| > 1 {
      var rest := lines[1..];
      assert forall l | l in rest :: l in lines;
      SplitJoin(rest);
      var all := Join(lines);
      assert Matches(all, lines[0], 0) && Matches(all, CRLF, |lines[0]|);
      C.LineEnd(all, 0, lines[0]);
      assert all[..|lines[0]|] == lines[0] && all[|lines[0]| + 2..] == Join(rest);
      assert [lines[0]] + rest == lines;
    } else {
      assert lines == [lines[0]];
    }
  }

  /** The blank line after non-empty lines is where they end. */
  lemma {:induction false} BlankEnds(raw: seq<Byte>, at: nat, lines: seq<seq<Byte>>)
    requires lines != [] && forall l | l in lines :: C.Plain(l) && l != []
    requires Matches(raw, Join(lines) + BLANK_LINE, at)
    ensures First(raw, BLANK_LINE, at) == Some(at + |Join(lines)|)
    decreases |lines|
  {
    hide First, C.Plain, Matches;
    var l := lines[0];
    assert l in lines;
    assert CRLF + CRLF == BLANK_LINE;
    if |lines| == 1 {
      MatchesConcat(raw, l, BLANK_LINE, at);
      MatchesConcat(raw, CRLF, CRLF, at + |l|);
      NoBlankInside(raw, at, l);
      FirstFrom(raw, BLANK_LINE, at, at + |l|);
      FoundHere(raw, at + |l|);
    } else {
      var rest := lines[1..];
      assert forall x | x in rest :: x in lines;
      var next := at + |l| + 2;
      assert Join(lines) + BLANK_LINE == l + CRLF + (Join(rest) + BLANK_LINE);
      MatchesConcat(raw, l + CRLF, Join(rest) + BLANK_LINE, at);
      MatchesConcat(raw, l, CRLF, at);
      NoBlankInside(raw, at, l);
      BlankEnds(raw, next, rest);
      NoBlankBetween(raw, next, rest);
      FirstFrom(raw, BLANK_LINE, at, next);
    }
  }

  lemma FoundHere(raw: seq<Byte>, at: nat)
    requires Matches(raw, BLANK_LINE, at)
    ensures First(raw, BLANK_LINE, at) == Some(at)
  {
  }

  lemma NoBlankInside(raw: seq<Byte>, at: nat, l: seq<Byte>)
    requires C.Plain(l) && Matches(raw, l, at) && Matches(raw, CRLF, at + |l|)
    ensures forall j: nat | at <= j < at + |l| :: !Matches(raw, BLANK_LINE, j)
  {
    hide First;
    C.LineEnd(raw, at, l);
    forall j: nat | at <= j < at + |l|
      ensures !Matches(raw, BLANK_LINE, j)
    {
      assert CRLF + CRLF == BLANK_LINE;
      MatchesConcat(raw, CRLF, CRLF, j);
    }
  }

  /** No blank line stands astride the end of a line and the start of the next. */
  lemma NoBlankBetween(raw: seq<Byte>, next: nat, rest: seq<seq<Byte>>)
    requires next >= 2 && rest != [] && C.Plain(rest[0]) && rest[0] != []
    requires Matches(raw, Join(rest) + BLANK_LINE, next) && Matches(raw, CRLF, next - 2)
    ensures !Matches(raw, BLANK_LINE, next - 2) && !Matches(raw, BLANK_LINE, next - 1)
  {
    hide First, C.Plain;
    var l := rest[0];
    assert CRLF + CRLF == BLANK_LINE;
    var tail := if |rest| == 1 then CRLF else Join(rest[1..]) + BLANK_LINE;
    assert Join(rest) + BLANK_LINE == l + CRLF + tail;
    MatchesConcat(raw, l + CRLF, tail, next);
    MatchesConcat(raw, l, CRLF, next);
    C.LineEnd(raw, next, l);
    MatchesConcat(raw, CRLF, CRLF, next - 2);
    assert raw[next - 2..next][1] == raw[next - 1] == LF;
  }

  // ---- Heads read back ----

  lemma {:induction false} TokenEnds(a: seq<Byte>, b: seq<Byte>)
    requires (forall x | x in a :: Visible(x)) && (b != [] ==> b[0] == 32)
    ensures TokenLen(a + b) == |a|
    decreases |a|
  {
    if a == [] {
      assert a + b == b;
      if b != [] {
        assert b[..1] == [32];
      }
    } else {
      assert a[0] in a && (a + b)[0] == a[0] && (a + b)[1..] == a[1..] + b;
      NoWhite(a + b);
      TokenEnds(a[1..], b);
    }
  }

  lemma NoWhite(s: seq<Byte>)
    requires s != [] && Visible(s[0])
    ensures WhiteHead(s) == 0 && TrimStart(s) == s
  {
  }

  lemma SpaceTrims(s: seq<Byte>)
    requires s != [] ==> Visible(s[0])
    ensures TrimStart([32] + s) == s
  {
    var t := [32] + s;
    assert t[..1] == [32] && t[1..] == s;
    if s != [] {
      NoWhite(s);
    }
  }

  lemma StatusReads(h: Sent)
    requires Valid(h)
    ensures SecondToken(StatusLine(h)) == Dec(h.status)
  {
    hide TrimStart, TokenLen, Dec, WhiteHead;
    var number := Dec(h.status) + [32] + h.reason;
    var line := StatusLine(h);
    assert line == h.version + ([32] + number);
    assert h.version[0] in h.version && line[0] == h.version[0];
    NoWhite(line);
    TokenEnds(h.version, [32] + number);
    assert line[|h.version|..] == [32] + number;
    assert Dec(h.status)[0] in Dec(h.status) && number[0] == Dec(h.status)[0];
    SpaceTrims(number);
    assert number == Dec(h.status) + ([32] + h.reason);
    TokenEnds(Dec(h.status), [32] + h.reason);
    assert number[..|Dec(h.status)|] == Dec(h.status);
  }

  /** A value comes out of the spaces and tabs around it. */
  lemma ValueTrimmed(value: seq<Byte>, p: Pad)
    requires ValidValue(value) && Blank(p.before) && Blank(p.after)
    ensures Trim(p.before + (value + p.after)) == value
  {
    hide TrimStart, TrimEnd, IsWhite;
    var before, after := Singles(p.before), Singles(p.after);
    BlankIsWhite(p.before);
    BlankIsWhite(p.after);
    if value != [] {
      C.CoreTrimmed(before, value, after);
    } else {
      assert p.before + (value + p.after) == Flatten(before) + p.after;
      TrimsBefore(before, p.after);
      assert p.after == Flatten(after) + [];
      TrimsBefore(after, []);
      NothingLeft();
    }
  }

  function Singles(s: seq<Byte>): seq<seq<Byte>> {
    if s == [] then [] else [[s[0]]] + Singles(s[1..])
  }

  lemma {:induction false} BlankIsWhite(s: seq<Byte>)
    requires Blank(s)
    ensures AllWhite(Singles(s)) && Flatten(Singles(s)) == s
  {
    if s != [] {
      assert s[0] in s && forall b | b in s[1..] :: b in s;
      BlankIsWhite(s[1..]);
      assert Singles(s)[1..] == Singles(s[1..]) && s == [s[0]] + s[1..];
    }
  }

  lemma FieldReads(f: Field, p: Pad)
    requires ValidName(f.name) && ValidValue(f.value) && Blank(p.before) && Blank(p.after)
    ensures var line := FieldLine(f, p);
            && First(line, [58], 0) == Some(|f.name|)
            && Trim(line[..|f.name|]) == f.name && Trim(line[|f.name| + 1..]) == f.value
  {
    hide First, C.Plain, Trim;
    var line, at := FieldLine(f, p), |f.name|;
    forall j: nat | j < at
      ensures !Matches(line, [58], j)
    {
      assert f.name[j] in f.name && line[j..j + 1] == [f.name[j]];
    }
    assert line[at..at + 1] == [58] && Matches(line, [58], at);
    FirstFrom(line, [58], 0, at);
    FoundColon(line, at);
    assert line[..at] == f.name && line[at + 1..] == p.before + (f.value + p.after);
    assert f.name[0] in f.name && f.name[at - 1] in f.name;
    C.NothingToTrim(f.name);
    ValueTrimmed(f.value, p);
  }

  lemma FoundColon(line: seq<Byte>, at: nat)
    requires Matches(line, [58], at)
    ensures First(line, [58], at) == Some(at)
  {
  }

  lemma NothingLeft()
    ensures TrimStart([]) == [] && TrimEnd([]) == []
  {
  }

  lemma {:induction false} FieldsRead(fields: seq<Field>, pads: seq<Pad>)
    requires forall f | f in fields :: ValidName(f.name) && ValidValue(f.value)
    requires forall p | p in pads :: Blank(p.before) && Blank(p.after)
    ensures FieldsOf(FieldLines(fields, pads)) == fields
    decreases |fields|
  {
    hide Trim, First, FieldLine, ValidValue, Blank;
    if fields != [] {
      assert fields[0] in fields && forall f | f in fields[1..] :: f in fields;
      var rest := if pads == [] then [] else pads[1..];
      assert forall p | p in rest :: p in pads;
      PadBlank(pads, 0);
      FieldReads(fields[0], PadOf(pads, 0));
      FieldsRead(fields[1..], rest);
      assert FieldLines(fields, pads)[1..] == FieldLines(fields[1..], rest);
      assert [fields[0]] + fields[1..] == fields;
    }
  }

  lemma HeadReads(h: Sent)
    requires Valid(h)
    ensures ParseHead(Join(Lines(h))) == Some((h.status, h.fields))
  {
    hide SecondToken, FieldsOf, StatusLine, FieldLines, Split, ParseUnsigned, Dec, C.Plain;
    LinesPlain(h);
    SplitJoin(Lines(h));
    assert Lines(h)[1..] == FieldLines(h.fields, h.pads);
    StatusReads(h);
    DecParses(h.status, 0xFFFF);
    FieldsRead(h.fields, h.pads);
  }

  /** The heads of `EncodeHeads`, where they stand in `raw`: the final one is found, or refused for its framing. */
  lemma {:induction false} HeadsFound(raw: seq<Byte>, at: nat, interims: seq<Sent>, h: Sent)
    requires ValidHeads(interims, h) && Matches(raw, EncodeHeads(interims, h), at)
    ensures at <= |raw|
    ensures var r := Heads(Answer(raw, at, None));
            match FramingOf(h.status, h.fields)
            case Err(e) => r == Err(e)
            case Ok(framing) => r.Ok? && r.value.head ==
                                Some(Head(h.status, h.fields, at + |EncodeHeads(interims, h)|, framing))
    decreases |interims|
  {
    hide First, ParseHead, FramingOf, Join, Lines, Matches, C.Plain;
    var first := if interims == [] then h else interims[0];
    var rest := if interims == [] then [] else EncodeHeads(interims[1..], h);
    assert interims != [] ==> first in interims;
    assert EncodeHeads(interims, h) == EncodeHead(first) + rest;
    MatchesConcat(raw, EncodeHead(first), rest, at);
    Inside(raw, EncodeHead(first), at);
    HeadTaken(raw, at, first);
    if interims != [] {
      assert forall i | i in interims[1..] :: i in interims;
      HeadsFound(raw, at + |EncodeHead(first)|, interims[1..], h);
    }
  }

  lemma Inside(raw: seq<Byte>, part: seq<Byte>, at: nat)
    requires Matches(raw, part, at)
    ensures at + |part| <= |raw|
  {
  }

  /** One head, where it stands in `raw`. */
  lemma HeadTaken(raw: seq<Byte>, at: nat, h: Sent)
    requires Valid(h) && Matches(raw, EncodeHead(h), at)
    ensures var end := at + |EncodeHead(h)| - 4;
            && at <= end && end + 4 <= |raw| && First(raw, BLANK_LINE, at) == Some(end)
            && ParseHead(raw[at..end]) == Some((h.status, h.fields))
  {
    hide First, ParseHead, StatusLine, FieldLines, Join, C.Plain;
    LinesPlain(h);
    BlankEnds(raw, at, Lines(h));
    MatchesConcat(raw, Join(Lines(h)), BLANK_LINE, at);
    HeadReads(h);
  }

  // ---- Where an answer ends ----

  /** Whether the fields announce a chunked body. */
  ghost predicate SaysChunked(fields: seq<Field>) {
    exists v :: FirstField(fields, TRANSFER, v) && Holds(v, CODING)
  }

  /** The framing of an answer, in numbers and words. */
  lemma Frames(status: nat, fields: seq<Field>)
    ensures status == 204 || status == 304 ==> FramingOf(status, fields) == Ok(Length(0))
    ensures status != 204 && status != 304 && SaysChunked(fields) ==>
              FramingOf(status, fields) == Ok(Chunked(Dechunk.START))
    ensures status != 204 && status != 304 && !SaysChunked(fields) && NoField(fields, LENGTH) ==>
              FramingOf(status, fields) == Ok(Close)
    ensures status != 204 && status != 304 && !SaysChunked(fields) ==>
              forall v :: FirstField(fields, LENGTH, v) ==>
                FramingOf(status, fields) ==
                match ParseUnsigned(v, 10, USIZE_MAX) case Some(n) => Ok(Length(n)) case None => Err(BadContentLength)
  {
    hide Spells, FieldNamed, First, LowerAll, ParseUnsigned, FirstField, NoField, Holds;
    Words();
    NamedIs(fields, TRANSFER);
    NamedIs(fields, LENGTH);
    var coding := FieldNamed(fields, TRANSFER_ENCODING);
    if coding.Some? {
      HoldsIff(coding.value);
    } else {
      NothingSaid(fields);
    }
  }

  lemma NothingSaid(fields: seq<Field>)
    requires NoField(fields, TRANSFER)
    ensures !SaysChunked(fields)
  {
    forall v
      ensures !FirstField(fields, TRANSFER, v)
    {
      assert forall i | 0 <= i < |fields| :: fields[i] in fields;
    }
  }

  /** What a reader has of heads with a body behind them that is not chunked. */
  ghost predicate Reads(octets: seq<Byte>, head: Head) {
    && head.bodyStart == |octets| && Heads(EMPTY.(raw := octets)).Ok?
    && Heads(EMPTY.(raw := octets)).value.head == Some(head)
  }

  lemma ReadsHeads(interims: seq<Sent>, h: Sent, framing: Framing)
    requires ValidHeads(interims, h) && FramingOf(h.status, h.fields) == Ok(framing)
    ensures var octets := EncodeHeads(interims, h); Reads(octets, Head(h.status, h.fields, |octets|, framing))
  {
    hide Heads, EncodeHeads, FramingOf;
    var octets := EncodeHeads(interims, h);
    assert Matches(octets, octets, 0);
    HeadsFound(octets, 0, interims, h);
  }

  /** How an answer with `head` and `body` finishes, unless its body is chunked. */
  function FinishOf(head: Head, body: seq<Byte>): Result<(nat, seq<Field>, seq<Byte>), Error> {
    match head.framing
    case Length(n) => if |body| < n then Err(TruncatedBody) else Ok((head.status, head.fields, body[..n]))
    case _ => Ok((head.status, head.fields, body))
  }

  /** Whether every way to cut `raw` into pushes is accepted and finishes with `r`. */
  ghost predicate EveryCutEnds(raw: seq<Byte>, r: Result<(nat, seq<Field>, seq<Byte>), Error>) {
    forall pieces: seq<seq<Byte>> | Flatten(pieces) == raw ::
      PushAll(EMPTY, pieces).Ok? && Finish(PushAll(EMPTY, pieces).value) == r
  }

  lemma PlainBody(octets: seq<Byte>, head: Head, body: seq<Byte>)
    requires Reads(octets, head) && !head.framing.Chunked? && |octets + body| <= MAX_BODY
    ensures EveryCutEnds(octets + body, FinishOf(head, body)) && Push(EMPTY, octets + body).Ok?
    ensures Whole(Push(EMPTY, octets + body).value) <==> head.framing.Length? && |body| >= head.framing.length
  {
    hide Heads;
    var a, raw := EMPTY.(raw := octets), octets + body;
    HeadsExtend(a, body);
    HeadKept(Heads(a).value.(raw := raw));
    assert raw[|octets|..] == body && [] + raw == raw;
    assert Push(EMPTY, raw).Ok? && Finish(Push(EMPTY, raw).value) == FinishOf(head, body);
    EveryCutIffShortLines(raw);
  }

  /** Nothing but an error comes of an answer that is cut inside its heads. */
  lemma HeadCut(octets: seq<Byte>, head: Head, cut: nat)
    requires Reads(octets, head) && cut < |octets| <= MAX_BODY
    ensures EveryCutEnds(octets[..cut], Err(if cut == 0 then EmptyResponse else TruncatedHead))
  {
    hide Heads;
    var part, rest := octets[..cut], octets[cut..];
    assert octets == part + rest && [] + part == part;
    var a := EMPTY.(raw := part);
    HeadsExtend(a, rest);
    var r := Heads(a);
    assert r.Ok?;
    if r.value.head.Some? {
      HeadKept(r.value.(raw := octets));
    }
    assert r.value.head.None?;
    assert Push(EMPTY, part).Ok? && Push(EMPTY, part).value == r.value;
    EveryCutIffShortLines(part);
  }

  /** With a Content-Length the body is exactly that many octets, whatever comes behind them and however it is
      cut. */
  lemma EndsAtLength(interims: seq<Sent>, h: Sent, n: nat, body: seq<Byte>)
    requires ValidHeads(interims, h) && h.status != 204 && h.status != 304 && !SaysChunked(h.fields)
    requires FirstField(h.fields, LENGTH, Dec(n)) && n <= |body| && |EncodeHeads(interims, h) + body| <= 524_288
    ensures EveryCutEnds(EncodeHeads(interims, h) + body, Ok((h.status, h.fields, body[..n])))
    ensures var r := Push(EMPTY, EncodeHeads(interims, h) + body); r.Ok? && Whole(r.value)
  {
    hide EncodeHeads, FramingOf, FirstField, SaysChunked, EveryCutEnds, Dec, ParseUnsigned, Reads, Push, Whole;
    Frames(h.status, h.fields);
    DecParses(n, USIZE_MAX);
    var octets := EncodeHeads(interims, h);
    ReadsHeads(interims, h, Length(n));
    PlainBody(octets, Head(h.status, h.fields, |octets|, Length(n)), body);
  }

  /** Every strict prefix of such an answer is an error, never a short body. */
  lemma ShortOfLength(interims: seq<Sent>, h: Sent, n: nat, body: seq<Byte>, cut: nat)
    requires ValidHeads(interims, h) && h.status != 204 && h.status != 304 && !SaysChunked(h.fields)
    requires FirstField(h.fields, LENGTH, Dec(n)) && |body| == n && |EncodeHeads(interims, h) + body| <= 524_288
    requires cut < |EncodeHeads(interims, h) + body|
    ensures exists e :: EveryCutEnds((EncodeHeads(interims, h) + body)[..cut], Err(e))
  {
    hide EncodeHeads, FramingOf, FirstField, SaysChunked, EveryCutEnds, Dec, ParseUnsigned, Reads, Push, Whole;
    Frames(h.status, h.fields);
    DecParses(n, USIZE_MAX);
    var octets := EncodeHeads(interims, h);
    ReadsHeads(interims, h, Length(n));
    var head := Head(h.status, h.fields, |octets|, Length(n));
    if cut < |octets| {
      HeadCut(octets, head, cut);
      assert (octets + body)[..cut] == octets[..cut];
    } else {
      PlainBody(octets, head, body[..cut - |octets|]);
      assert (octets + body)[..cut] == octets + body[..cut - |octets|];
    }
  }

  /** An answer of status 204 or 304 has no body, whatever its fields say and whatever comes behind it. */
  lemma EndsAtHead(interims: seq<Sent>, h: Sent, body: seq<Byte>)
    requires ValidHeads(interims, h) && (h.status == 204 || h.status == 304)
    requires |EncodeHeads(interims, h) + body| <= 524_288
    ensures EveryCutEnds(EncodeHeads(interims, h) + body, Ok((h.status, h.fields, [])))
    ensures var r := Push(EMPTY, EncodeHeads(interims, h) + body); r.Ok? && Whole(r.value)
  {
    hide EncodeHeads, FramingOf, EveryCutEnds, Reads, Push, Whole;
    Frames(h.status, h.fields);
    var octets := EncodeHeads(interims, h);
    ReadsHeads(interims, h, Length(0));
    PlainBody(octets, Head(h.status, h.fields, |octets|, Length(0)), body);
    assert body[..0] == [];
  }

  /** With neither field the body is all that comes before the connection ends. */
  lemma EndsWithConnection(interims: seq<Sent>, h: Sent, body: seq<Byte>)
    requires ValidHeads(interims, h) && h.status != 204 && h.status != 304
    requires !SaysChunked(h.fields) && NoField(h.fields, LENGTH) && |EncodeHeads(interims, h) + body| <= 524_288
    ensures EveryCutEnds(EncodeHeads(interims, h) + body, Ok((h.status, h.fields, body)))
    ensures var r := Push(EMPTY, EncodeHeads(interims, h) + body); r.Ok? && !Whole(r.value)
  {
    hide EncodeHeads, FramingOf, EveryCutEnds, Reads, SaysChunked, NoField, Push, Whole;
    Frames(h.status, h.fields);
    var octets := EncodeHeads(interims, h);
    ReadsHeads(interims, h, Close);
    PlainBody(octets, Head(h.status, h.fields, |octets|, Close), body);
  }

  /** A chunked coding goes before any Content-Length: the body is the chunks' data joined, however it is cut,
      exactly when each line of it is shorter than 8 KiB. */
  lemma EndsAtLastChunk(interims: seq<Sent>, h: Sent, b: C.Body)
    requires ValidHeads(interims, h) && h.status != 204 && h.status != 304 && SaysChunked(h.fields)
    requires C.WellFormed(b) && |EncodeHeads(interims, h) + C.Encode(b)| <= 524_288
    ensures EveryCutEnds(EncodeHeads(interims, h) + C.Encode(b), Ok((h.status, h.fields, C.Joined(b.chunks))))
            <==> C.ShortBody(b)
  {
    hide EncodeHeads, FramingOf, SaysChunked, C.WellFormed, C.Encode, C.ShortBody, Heads, PushAll, Finish;
    Frames(h.status, h.fields);
    var octets := EncodeHeads(interims, h);
    ReadsHeads(interims, h, Chunked(Dechunk.START));
    var head := Head(h.status, h.fields, |octets|, Chunked(Dechunk.START));
    Answers.EveryCutFinishesIff(octets, head, b);
    var raw, out := octets + C.Encode(b), (h.status, h.fields, C.Joined(b.chunks));
    assert EveryCutEnds(raw, Ok(out)) <==> Answers.EveryCutFinishes(raw, out);
  }

  /** A Content-Length that is no number refuses the answer. */
  lemma NoLength(interims: seq<Sent>, h: Sent, v: seq<Byte>, rest: seq<Byte>, k: nat)
    requires ValidHeads(interims, h) && h.status != 204 && h.status != 304 && !SaysChunked(h.fields)
    requires FirstField(h.fields, LENGTH, v) && (v == [] || (k < |v| && !(48 <= v[k] <= 57) && (k > 0 || v[k] != 43)))
    requires |EncodeHeads(interims, h) + rest| <= 524_288
    ensures Push(EMPTY, EncodeHeads(interims, h) + rest) == Err(BadContentLength)
  {
    hide EncodeHeads, FramingOf, FirstField, SaysChunked, ParseUnsigned, Heads;
    Frames(h.status, h.fields);
    NotNumber(v, k);
    var octets := EncodeHeads(interims, h);
    assert Matches(octets + rest, octets, 0);
    HeadsFound(octets + rest, 0, interims, h);
    assert [] + (octets + rest) == octets + rest;
  }

  lemma NotNumber(v: seq<Byte>, k: nat)
    requires v == [] || (k < |v| && !(48 <= v[k] <= 57) && (k > 0 || v[k] != 43))
    ensures ParseUnsigned(v, 10, USIZE_MAX).None?
  {
    if v != [] {
      if v[0] == 43 && |v| > 1 {
        NotDigits(v[1..], k - 1);
      } else {
        NotDigits(v, k);
      }
    }
  }

  lemma {:induction false} NotDigits(s: seq<Byte>, k: nat)
    requires k < |s| && !(48 <= s[k] <= 57)
    ensures Digits(s, 10).None?
    decreases |s|
  {
    if k < |s| - 1 {
      NotDigits(s[..|s| - 1], k);
    }
  }
}
