/** The grammar of a chunked body, and that the reader accepts exactly its sentences. */
module Chunked {
  import opened Bytes
  import opened Text
  import opened Spelling
  import opened Dechunk

  datatype Chunk = Chunk(line: seq<Byte>, data: seq<Byte>)

  /** A whole chunked body: its chunks, the line of the last chunk, the fields of its trailer. */
  datatype Body = Body(chunks: seq<Chunk>, last: seq<Byte>, trailer: seq<seq<Byte>>)

  predicate Plain(line: seq<Byte>) { First(line, CRLF, 0).None? }

  ghost predicate WellFormed(b: Body) {
    && (forall c | c in b.chunks :: Plain(c.line) && c.data != [] && SizeOf(c.line, |c.data|))
    && Plain(b.last) && SizeOf(b.last, 0)
    && (forall t | t in b.trailer :: Plain(t) && t != [])
  }

  /** Whether every line of `b` is shorter than 8 KiB. */
  ghost predicate ShortBody(b: Body) {
    && (forall c | c in b.chunks :: |c.line| < 8_192) && |b.last| < 8_192
    && (forall t | t in b.trailer :: |t| < 8_192)
  }

  function EncodeTrailer(fields: seq<seq<Byte>>): seq<Byte> {
    if fields == [] then [13, 10] else fields[0] + [13, 10] + EncodeTrailer(fields[1..])
  }

  function Encode(b: Body): seq<Byte>
    decreases |b.chunks|
  {
    if b.chunks == [] then b.last + [13, 10] + EncodeTrailer(b.trailer)
    else
      var c := b.chunks[0];
      c.line + [13, 10] + (c.data + [13, 10] + Encode(b.(chunks := b.chunks[1..])))
  }

  function Joined(chunks: seq<Chunk>): seq<Byte> {
    if chunks == [] then [] else chunks[0].data + Joined(chunks[1..])
  }

  lemma LineEnd(body: seq<Byte>, at: nat, line: seq<Byte>)
    requires Matches(body, line, at) && Matches(body, CRLF, at + |line|) && Plain(line)
    ensures First(body, CRLF, at) == Some(at + |line|)
  {
    var end := at + |line|;
    forall j: nat | at <= j < end
      ensures !Matches(body, CRLF, j)
    {
      if Matches(body, CRLF, j) {
        NoBreakInside(body, at, line, j);
        assert false;
      }
    }
    FirstFrom(body, CRLF, at, end);
  }

  lemma NoBreakInside(body: seq<Byte>, at: nat, line: seq<Byte>, j: nat)
    requires Matches(body, line, at) && Matches(body, CRLF, at + |line|) && Plain(line)
    requires at <= j < at + |line|
    ensures !Matches(body, CRLF, j)
  {
    var k := j - at;
    var end := at + |line|;
    var found := body[at..end];
    assert body[end..end + 2][0] == body[end];
    assert body[j..j + 2] == [body[j], body[j + 1]];
    if j + 1 < end {
      assert !Matches(line, CRLF, k);
      assert line[k..k + 2] == [line[k], line[k + 1]];
      assert found[k] == body[j] && found[k + 1] == body[j + 1];
    }
  }

  /** A line found in a body is free of CRLF. */
  lemma FoundLine(body: seq<Byte>, at: nat)
    requires at <= |body| && First(body, CRLF, at).Some?
    ensures var end := First(body, CRLF, at).value;
            Plain(body[at..end]) && body[at..end + 2] == body[at..end] + CRLF
  {
    var end := First(body, CRLF, at).value;
    var line := body[at..end];
    assert body[end..end + 2] == CRLF;
    forall k: nat
      ensures !Matches(line, CRLF, k)
    {
      if k + 2 <= |line| {
        assert body[at + k..at + k + 2] == line[k..k + 2];
        assert !Matches(body, CRLF, at + k);
      }
    }
  }

  lemma SettleStep(body: seq<Byte>, p: Progress, q: Progress)
    requires p.at <= |body| && !p.done && StepOf(body, p) == Next(q)
    ensures Settle(body, p) == Settle(body, q)
  {
  }

  /** A line of `length` octets keeps the lines short exactly when it is short and the rest are. */
  lemma ShortStep(body: seq<Byte>, p: Progress, q: Progress, length: nat)
    requires p.at <= |body| && !p.done && StepOf(body, p) == Next(q)
    requires p.data.None? ==> First(body, CRLF, p.at) == Some(p.at + length)
    ensures ShortLines(body, p) <==> (p.data.None? ==> length < MAX_LINE) && ShortLines(body, q)
  {
    hide First, StepOf;
  }

  lemma SettleDone(body: seq<Byte>, p: Progress)
    requires p.at <= |body| && p.done
    ensures Settle(body, p) == Ok(p)
  {
  }

  lemma ShortDone(body: seq<Byte>, p: Progress)
    requires p.at <= |body| && p.done
    ensures ShortLines(body, p)
  {
  }

  lemma TrailerStep(body: seq<Byte>, p: Progress, line: seq<Byte>)
    requires p.at <= |body| && p.data.None? && p.trailer && !p.done && Plain(line)
    requires Matches(body, line, p.at) && Matches(body, CRLF, p.at + |line|)
    ensures var q := p.(at := p.at + |line| + 2, done := line == []);
            && Settle(body, p) == Settle(body, q)
            && (ShortLines(body, p) <==> |line| < MAX_LINE && ShortLines(body, q))
  {
    hide Settle, ShortLines, First, StepOf, Plain, Matches;
    LineEnd(body, p.at, line);
    MatchedLine(body, line, p.at);
    LineStep(body, p);
    var q := p.(at := p.at + |line| + 2, done := line == []);
    SettleStep(body, p, q);
    ShortStep(body, p, q, |line|);
  }

  lemma SizeStep(body: seq<Byte>, p: Progress, line: seq<Byte>, size: nat)
    requires p.at <= |body| && p.data.None? && !p.trailer && !p.done && Plain(line)
    requires ChunkSize(line) == Some(size)
    requires Matches(body, line, p.at) && Matches(body, CRLF, p.at + |line|)
    ensures var q := AfterSize(p, line, size);
            && Settle(body, p) == Settle(body, q)
            && (ShortLines(body, p) <==> |line| < MAX_LINE && ShortLines(body, q))
  {
    hide *;
    LineEnd(body, p.at, line);
    MatchedLine(body, line, p.at);
    LineStep(body, p);
    StepSize(line, p, size);
    AfterSizeAt(p, line, size);
    SettleStep(body, p, AfterSize(p, line, size));
    ShortStep(body, p, AfterSize(p, line, size), |line|);
  }

  lemma AfterSizeAt(p: Progress, line: seq<Byte>, size: nat)
    ensures AfterSize(p, line, size).at == p.at + |line| + 2
  {
  }

  lemma LineStep(body: seq<Byte>, p: Progress)
    requires p.at <= |body| && p.data.None? && First(body, CRLF, p.at).Some?
    ensures StepOf(body, p) == StepOver(body[p.at..First(body, CRLF, p.at).value], p)
  {
    hide First, ChunkSize;
  }

  lemma StepSize(line: seq<Byte>, p: Progress, size: nat)
    requires !p.trailer && ChunkSize(line) == Some(size)
    ensures StepOver(line, p) == Next(AfterSize(p, line, size))
  {
    hide ChunkSize;
  }

  lemma MatchedLine(body: seq<Byte>, line: seq<Byte>, at: nat)
    requires Matches(body, line, at)
    ensures at + |line| <= |body| && body[at..at + |line|] == line
  {
  }

  function AfterSize(p: Progress, line: seq<Byte>, size: nat): Progress {
    var q := p.(at := p.at + |line| + 2);
    if size == 0 then q.(trailer := true) else q.(data := Some(size))
  }

  lemma DataStep(body: seq<Byte>, p: Progress, data: seq<Byte>)
    requires p.at <= |body| <= USIZE_MAX && p.data == Some(|data|) && !p.done
    requires Matches(body, data, p.at) && Matches(body, CRLF, p.at + |data|)
    ensures var q := Progress(p.at + |data| + 2, None, p.trailer, false, p.joined + data);
            Settle(body, p) == Settle(body, q) && (ShortLines(body, p) <==> ShortLines(body, q))
  {
    var q := Progress(p.at + |data| + 2, None, p.trailer, false, p.joined + data);
    SettleStep(body, p, q);
    ShortStep(body, p, q, 0);
  }

  lemma {:induction false} ReadTrailer(body: seq<Byte>, p: Progress, fields: seq<seq<Byte>>)
    requires forall t | t in fields :: Plain(t) && t != []
    requires p.data.None? && p.trailer && !p.done && Matches(body, EncodeTrailer(fields), p.at)
    ensures Settle(body, p) == Ok(p.(at := p.at + |EncodeTrailer(fields)|, done := true))
    ensures ShortLines(body, p) <==> forall t | t in fields :: |t| < MAX_LINE
    decreases |fields|
  {
    hide Settle, First, ShortLines;
    if fields == [] {
      TrailerStep(body, p, []);
      SettleDone(body, p.(at := p.at + 2, done := true));
      ShortDone(body, p.(at := p.at + 2, done := true));
    } else {
      var line, rest := fields[0], EncodeTrailer(fields[1..]);
      MatchesConcat(body, line + CRLF, rest, p.at);
      MatchesConcat(body, line, CRLF, p.at);
      TrailerStep(body, p, line);
      ReadTrailer(body, p.(at := p.at + |line| + 2, done := false), fields[1..]);
    }
  }

  /** Every well-formed chunked body is read to its end and joins to its chunks' data, and the lines the
      reader meets on the way are the body's own. */
  lemma {:induction false} ReadEncoded(body: seq<Byte>, p: Progress, b: Body)
    requires WellFormed(b) && p.data.None? && !p.trailer && !p.done
    requires |body| <= USIZE_MAX && Matches(body, Encode(b), p.at)
    ensures Settle(body, p) == Ok(Progress(p.at + |Encode(b)|, None, true, true, p.joined + Joined(b.chunks)))
    ensures ShortLines(body, p) <==> ShortBody(b)
    decreases |b.chunks|
  {
    hide ChunkSize, Settle, First, ShortLines, Matches, Plain, SizeOf;
    if b.chunks == [] {
      ReadLast(body, p, b);
      assert p.joined + Joined(b.chunks) == p.joined;
    } else {
      var c, tail := b.chunks[0], b.(chunks := b.chunks[1..]);
      assert c in b.chunks;
      SizeIff(c.line, |c.data|);
      var q := Progress(p.at + |c.line| + 2 + |c.data| + 2, None, false, false, p.joined + c.data);
      ReadChunk(body, p, c, Encode(tail));
      ReadEncoded(body, q, tail);
      assert p.joined + c.data + Joined(tail.chunks) == p.joined + Joined(b.chunks);
    }
  }

  lemma ReadLast(body: seq<Byte>, p: Progress, b: Body)
    requires WellFormed(b) && b.chunks == [] && p.data.None? && !p.trailer && !p.done
    requires Matches(body, Encode(b), p.at)
    ensures Settle(body, p) == Ok(Progress(p.at + |Encode(b)|, None, true, true, p.joined))
    ensures ShortLines(body, p) <==> ShortBody(b)
  {
    hide ChunkSize, Settle, First, ShortLines, Matches, Plain, SizeOf;
    SizeIff(b.last, 0);
    MatchesConcat(body, b.last + CRLF, EncodeTrailer(b.trailer), p.at);
    MatchesConcat(body, b.last, CRLF, p.at);
    MatchedLine(body, b.last, p.at);
    SizeStep(body, p, b.last, 0);
    ReadTrailer(body, p.(at := p.at + |b.last| + 2, trailer := true), b.trailer);
  }

  lemma ReadChunk(body: seq<Byte>, p: Progress, c: Chunk, rest: seq<Byte>)
    requires p.data.None? && !p.trailer && !p.done && |body| <= USIZE_MAX
    requires Plain(c.line) && c.data != [] && ChunkSize(c.line) == Some(|c.data|)
    requires Matches(body, c.line + CRLF + (c.data + CRLF + rest), p.at)
    ensures var q := Progress(p.at + |c.line| + 2 + |c.data| + 2, None, false, false, p.joined + c.data);
            && Matches(body, rest, q.at) && Settle(body, p) == Settle(body, q)
            && (ShortLines(body, p) <==> |c.line| < MAX_LINE && ShortLines(body, q))
  {
    hide ChunkSize, Settle, First, ShortLines;
    var at := p.at + |c.line| + 2;
    MatchesConcat(body, c.line + CRLF, c.data + CRLF + rest, p.at);
    MatchesConcat(body, c.line, CRLF, p.at);
    MatchesConcat(body, c.data + CRLF, rest, at);
    MatchesConcat(body, c.data, CRLF, at);
    SizeStep(body, p, c.line, |c.data|);
    DataStep(body, p.(at := at, data := Some(|c.data|)), c.data);
  }

  lemma {:induction false} TrailerOf(body: seq<Byte>, p: Progress) returns (fields: seq<seq<Byte>>)
    requires p.at <= |body| && p.data.None? && p.trailer && !p.done
    requires Settle(body, p).Ok? && Settle(body, p).value.done
    ensures forall t | t in fields :: Plain(t) && t != []
    ensures body[p.at..Settle(body, p).value.at] == EncodeTrailer(fields)
    ensures Settle(body, p).value.joined == p.joined
    decreases |body| - p.at
  {
    hide ChunkSize, Plain, First, StepData;
    FoundLine(body, p.at);
    var end := First(body, CRLF, p.at).value;
    var line := body[p.at..end];
    var q := StepOf(body, p).p;
    if line == [] {
      fields := [];
    } else {
      var more := TrailerOf(body, q);
      fields := [line] + more;
      assert fields[1..] == more;
      var last := Settle(body, p).value.at;
      assert body[p.at..last] == body[p.at..end + 2] + body[end + 2..last];
    }
  }

  /** The reader's next chunk, when it does not stop before one. */
  lemma ChunkAt(body: seq<Byte>, p: Progress) returns (c: Chunk, q: Progress)
    requires p.at <= |body| && p.data.None? && !p.trailer && !p.done
    requires Settle(body, p).Ok? && Settle(body, p).value.done && !StepOf(body, p).p.trailer
    ensures Plain(c.line) && c.data != [] && ChunkSize(c.line) == Some(|c.data|)
    ensures p.at < q.at <= |body| && body[p.at..q.at] == c.line + CRLF + (c.data + CRLF)
    ensures q == Progress(q.at, None, false, false, p.joined + c.data)
    ensures Settle(body, p) == Settle(body, q)
  {
    hide ChunkSize, Settle, First, StepOf;
    var line, m := SizeAt(body, p);
    q := DataAt(body, m);
    c := Chunk(line, body[m.at..q.at - 2]);
    SliceData(body, p.at, m.at, q.at);
  }

  lemma SizeAt(body: seq<Byte>, p: Progress) returns (line: seq<Byte>, m: Progress)
    requires p.at <= |body| && p.data.None? && !p.trailer && !p.done
    requires Settle(body, p).Ok? && Settle(body, p).value.done && !StepOf(body, p).p.trailer
    ensures p.at < m.at <= |body| && body[p.at..m.at] == line + CRLF && Plain(line)
    ensures m == p.(at := m.at, data := ChunkSize(line)) && m.data.Some? && m.data.value > 0
    ensures Settle(body, p) == Settle(body, m)
  {
    hide ChunkSize;
    FoundLine(body, p.at);
    line := body[p.at..First(body, CRLF, p.at).value];
    m := StepOf(body, p).p;
  }

  lemma DataAt(body: seq<Byte>, m: Progress) returns (q: Progress)
    requires m.at <= |body| && m.data.Some? && !m.done
    requires Settle(body, m).Ok? && Settle(body, m).value.done
    ensures q.at == m.at + m.data.value + 2 <= |body| && body[q.at - 2..q.at] == CRLF
    ensures q == Progress(q.at, None, m.trailer, false, m.joined + body[m.at..q.at - 2])
    ensures Settle(body, m) == Settle(body, q)
  {
    hide StepLine;
    assert StepData(body, m).Next?;
    q := StepData(body, m).p;
    SettleStep(body, m, q);
  }

  lemma SliceData(body: seq<Byte>, from: nat, mid: nat, to: nat)
    requires from <= mid && mid + 2 <= to <= |body| && body[to - 2..to] == CRLF
    ensures body[from..to] == body[from..mid] + (body[mid..to - 2] + CRLF)
  {
    assert body[mid..to] == body[mid..to - 2] + body[to - 2..to];
    assert body[from..to] == body[from..mid] + body[mid..to];
  }

  lemma LastAt(body: seq<Byte>, p: Progress) returns (b: Body)
    requires p.at <= |body| && p.data.None? && !p.trailer && !p.done
    requires Settle(body, p).Ok? && Settle(body, p).value.done && StepOf(body, p).p.trailer
    ensures b.chunks == [] && WellFormed(b) && body[p.at..Settle(body, p).value.at] == Encode(b)
    ensures Settle(body, p).value.joined == p.joined
  {
    hide ChunkSize, First, StepData, SizeOf;
    FoundLine(body, p.at);
    var end := First(body, CRLF, p.at).value;
    SizeIff(body[p.at..end], 0);
    var q := StepOf(body, p).p;
    SettleStep(body, p, q);
    var fields := TrailerOf(body, q);
    b := Body([], body[p.at..end], fields);
    var last := Settle(body, p).value.at;
    assert body[p.at..last] == body[p.at..q.at] + body[q.at..last];
  }

  /** Whatever the reader takes for a whole body is a well-formed chunked body, and what it joined
      is that body's data. */
  lemma {:induction false} BodyOf(body: seq<Byte>, p: Progress) returns (b: Body)
    requires p.at <= |body| && p.data.None? && !p.trailer && !p.done
    requires Settle(body, p).Ok? && Settle(body, p).value.done
    ensures WellFormed(b) && body[p.at..Settle(body, p).value.at] == Encode(b)
    ensures Settle(body, p).value.joined == p.joined + Joined(b.chunks)
    decreases |body| - p.at
  {
    hide ChunkSize, First, StepData, StepLine, SizeOf;
    if StepOf(body, p).p.trailer {
      b := LastAt(body, p);
      assert p.joined + Joined(b.chunks) == p.joined;
    } else {
      var c, q := ChunkAt(body, p);
      SizeIff(c.line, |c.data|);
      var tail := BodyOf(body, q);
      b := tail.(chunks := [c] + tail.chunks);
      assert b.chunks[1..] == tail.chunks && b.(chunks := tail.chunks) == tail;
      var last := Settle(body, p).value.at;
      assert body[p.at..last] == body[p.at..q.at] + body[q.at..last];
      assert body[p.at..last] == c.line + CRLF + (c.data + CRLF + Encode(tail));
      assert p.joined + c.data + Joined(tail.chunks) == p.joined + (c.data + Joined(tail.chunks));
    }
  }

  /** Whether `body` starts with a sentence of the chunked grammar that carries `data`. */
  ghost predicate StartsChunked(body: seq<Byte>, data: seq<Byte>) {
    exists b :: WellFormed(b) && Encode(b) <= body && Joined(b.chunks) == data
  }

  /** The reader takes a body for whole exactly when the body starts with a sentence of the chunked
      grammar, and joins exactly that sentence's data. */
  lemma WholeIffChunked(body: seq<Byte>, data: seq<Byte>)
    requires |body| <= USIZE_MAX
    ensures var r := Settle(body, START);
            (r.Ok? && r.value.done && r.value.joined == data) <==> StartsChunked(body, data)
  {
    hide Settle, ShortLines, Encode, ChunkSize, WellFormed;
    var r := Settle(body, START);
    if r.Ok? && r.value.done {
      var b := BodyOf(body, START);
      assert body[0..r.value.at] == Encode(b) && Encode(b) <= body;
      assert [] + Joined(b.chunks) == Joined(b.chunks);
    }
    if StartsChunked(body, data) {
      var b :| WellFormed(b) && Encode(b) <= body && Joined(b.chunks) == data;
      assert Matches(body, Encode(b), 0);
      ReadEncoded(body, START, b);
      assert [] + Joined(b.chunks) == Joined(b.chunks);
    }
  }

  /** A chunked body joins to its chunks' data however it is cut exactly when each of its lines is shorter
      than 8 KiB. */
  lemma EveryCutJoins(b: Body)
    requires WellFormed(b) && |Encode(b)| <= USIZE_MAX
    ensures EveryCutGives(Encode(b), Ok(Progress(|Encode(b)|, None, true, true, Joined(b.chunks)))) <==> ShortBody(b)
  {
    hide Settle, EveryCutGives, ShortLines, LongTail, Encode, ChunkSize, WellFormed, ShortBody;
    var code := Encode(b);
    MatchesSelf(code, []);
    assert code + [] == code;
    ReadEncoded(code, START, b);
    assert [] + Joined(b.chunks) == Joined(b.chunks);
    assert Settle(code, START) == Ok(Progress(|code|, None, true, true, Joined(b.chunks)));
    LongTailIff(code, START);
    SplitIndependence(code);
  }

  /** No strict prefix of a chunked body is taken for whole. */
  lemma TruncatedChunked(b: Body, cut: nat)
    requires WellFormed(b) && cut < |Encode(b)| <= USIZE_MAX
    ensures var r := Settle(Encode(b)[..cut], START); r.Ok? ==> !r.value.done
  {
    hide Settle, Encode, ChunkSize, WellFormed;
    var code := Encode(b);
    var part := code[..cut];
    assert code == part + code[cut..];
    MatchesSelf(code, []);
    ReadEncoded(code, START, b);
    SettleExtends(part, code[cut..], START);
    var r := Settle(part, START);
    if r.Ok? && r.value.done {
      SettleDone(code, r.value);
    }
  }

  // ---- The line before a chunk ----

  /** Whether `line` is a size in hexadecimal, with perhaps a '+' before it and any white space around it, and then
      nothing or a ';' and anything. */
  ghost predicate SizeLine(line: seq<Byte>, n: nat) {
    exists before, sign, digits, after, ext :: SizeAs(line, before, sign, digits, after, ext) && WritesHex(digits, n)
  }

  ghost predicate SizeAs(line: seq<Byte>, before: seq<seq<Byte>>, sign: seq<Byte>, digits: seq<Byte>,
                         after: seq<seq<Byte>>, ext: seq<Byte>)
  {
    && AllWhite(before) && AllWhite(after) && (sign == [] || sign == [43]) && (ext == [] || ext[0] == 59)
    && line == Flatten(before) + ((sign + digits) + Flatten(after)) + ext
  }

  lemma {:induction false} WhiteNoSemicolon(cs: seq<seq<Byte>>)
    requires AllWhite(cs)
    ensures 59 !in Flatten(cs)
  {
    if cs != [] {
      assert cs[0] in cs && forall c | c in cs[1..] :: c in cs;
      WhiteNoSemicolon(cs[1..]);
    }
  }

  lemma {:induction false} HexVisible(s: seq<Byte>)
    requires Digits(s, 16).Some?
    ensures forall b | b in s :: 48 <= b <= 57 || 65 <= b <= 70 || 97 <= b <= 102
  {
    if s != [] {
      HexVisible(s[..|s| - 1]);
      assert s == s[..|s| - 1] + [s[|s| - 1]];
    }
  }

  lemma BeforeJoined(core: seq<Byte>, ext: seq<Byte>)
    requires 59 !in core && (ext == [] || ext[0] == 59)
    ensures Before(core + ext, 59) == core
  {
    hide First;
    if ext == [] {
      assert core + ext == core;
      NotIn(core, [59]);
    } else {
      assert (core + ext)[|core|] == 59 && (core + ext)[..|core|] == core;
      FirstOne(core + ext, 59, |core|);
    }
  }

  /** A visible core comes out of the white space around it. */
  lemma CoreTrimmed(before: seq<seq<Byte>>, core: seq<Byte>, after: seq<seq<Byte>>)
    requires AllWhite(before) && AllWhite(after) && core != [] && 32 < core[0] < 127 && 32 < core[|core| - 1] < 127
    ensures Trim(Flatten(before) + (core + Flatten(after))) == core
  {
    hide TrimStart, TrimEnd, Flatten, AllWhite;
    TrimsBefore(before, core + Flatten(after));
    VisibleFirst(core + Flatten(after));
    TrimsAfter(core, after);
    VisibleLast(core);
  }

  lemma SizeTaken(line: seq<Byte>, n: nat)
    requires SizeLine(line, n) && ValidUtf8(line) && n <= USIZE_MAX
    ensures ChunkSize(line) == Some(n)
  {
    hide ValidUtf8, Trim, Before, Flatten, AllWhite, Digits, WritesHex;
    var before, sign, digits, after, ext :|
      SizeAs(line, before, sign, digits, after, ext) && WritesHex(digits, n);
    HexNotEmpty(digits, n);
    HexIff(digits, n);
    HexVisible(digits);
    var core := sign + digits;
    assert core[|core| - 1] == digits[|digits| - 1] && digits[|digits| - 1] in digits && digits[0] in digits;
    WhiteNoSemicolon(before);
    WhiteNoSemicolon(after);
    assert 59 !in core;
    BeforeJoined(Flatten(before) + (core + Flatten(after)), ext);
    CoreTrimmed(before, core, after);
    ParsesSigned(sign, digits, n);
  }

  lemma HexNotEmpty(s: seq<Byte>, n: nat)
    requires WritesHex(s, n)
    ensures s != []
  {
  }

  lemma ParsesSigned(sign: seq<Byte>, digits: seq<Byte>, n: nat)
    requires (sign == [] || sign == [43]) && digits != [] && digits[0] != 43
    requires Digits(digits, 16) == Some(n) && n <= USIZE_MAX
    ensures ParseUnsigned(sign + digits, 16, USIZE_MAX) == Some(n)
  {
    hide Digits;
    if sign == [] {
      assert sign + digits == digits;
    } else {
      assert (sign + digits)[1..] == digits;
    }
  }

  lemma SizeRead(line: seq<Byte>)
    requires ChunkSize(line).Some?
    ensures SizeLine(line, ChunkSize(line).value)
  {
    hide ValidUtf8, TrimStart, TrimEnd, First, Flatten, AllWhite, Digits, WritesHex;
    var n, field := ChunkSize(line).value, Before(line, 59);
    var at := First(line, [59], 0);
    var ext := if at.Some? then line[at.value..] else [];
    assert line == field + ext;
    assert ext != [] ==> ext[0] == line[at.value..at.value + 1][0];
    var before := TrimmedBefore(field);
    var after := TrimmedAfter(TrimStart(field));
    var core := Trim(field);
    var sign := if core[0] == 43 && |core| > 1 then [core[0]] else [];
    var digits := core[|sign|..];
    assert core == sign + digits;
    HexIff(digits, n);
    assert SizeAs(line, before, sign, digits, after, ext);
  }

  /** Whether `line` is valid UTF-8 and is `n`, below 2^64, so written. */
  ghost predicate SizeOf(line: seq<Byte>, n: nat) {
    ValidUtf8(line) && SizeLine(line, n) && n < 0x1_0000_0000_0000_0000
  }

  /** A line gives a chunk of `n` octets exactly when it is `n` so written. */
  lemma SizeIff(line: seq<Byte>, n: nat)
    ensures ChunkSize(line) == Some(n) <==> SizeOf(line, n)
  {
    hide ValidUtf8, SizeLine;
    if ChunkSize(line) == Some(n) {
      SizeRead(line);
    }
    if ValidUtf8(line) && SizeLine(line, n) && n < 0x1_0000_0000_0000_0000 {
      SizeTaken(line, n);
    }
  }

  /** The size line that writes a chunk of `n` octets in hexadecimal reads back as `n`. */
  lemma HexLine(n: nat)
    requires n <= USIZE_MAX
    ensures ChunkSize(Hex(n)) == Some(n) && Plain(Hex(n))
  {
    hide ChunkSize, ValidUtf8, First, Hex, WritesHex, SizeLine;
    var s := Hex(n);
    AsciiIsUtf8(s);
    NotIn(s, CRLF);
    HexWrites(n);
    OnlyDigits(s, n);
    SizeTaken(s, n);
  }

  lemma HexWrites(n: nat)
    ensures WritesHex(Hex(n), n)
  {
    hide Hex;
    var s := Hex(n);
    assert forall i | 0 <= i < |s| :: s[i] in s && Small(s)[i] == s[i];
    assert Small(s) == s == Zeros(0) + s;
  }

  lemma OnlyDigits(s: seq<Byte>, n: nat)
    requires WritesHex(s, n)
    ensures SizeLine(s, n)
  {
    hide WritesHex;
    assert s == Flatten([]) + (([] + s) + Flatten([])) + [];
    assert SizeAs(s, [], [], s, [], []);
  }

  lemma NotIn(s: seq<Byte>, pat: seq<Byte>)
    requires pat != [] && pat[0] !in s
    ensures First(s, pat, 0).None?
  {
    forall at: nat
      ensures !Matches(s, pat, at)
    {
      if at + |pat| <= |s| {
        assert s[at..at + |pat|][0] == s[at];
      }
    }
  }

  lemma NothingToTrim(s: seq<Byte>)
    requires s != [] && 32 < s[0] < 127 && 32 < s[|s| - 1] < 127
    ensures Trim(s) == s
  {
    hide TrimStart, TrimEnd;
    VisibleFirst(s);
    VisibleLast(s);
  }
}
