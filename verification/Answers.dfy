/** Chunked answers from the sender's side: what a head and a sentence of the chunked grammar come to,
    however the connection cuts them. */
module Answers {
  import opened Bytes
  import opened Text
  import Dechunk
  import C = Chunked
  import opened Http1

  /** Whether `octets` is heads up to and with a final one that gives `head`, and no more. */
  ghost predicate IsHead(octets: seq<Byte>, head: Head) {
    && head.bodyStart == |octets| && head.framing == Chunked(Dechunk.START)
    && Heads(EMPTY.(raw := octets)).Ok? && Heads(EMPTY.(raw := octets)).value.head == Some(head)
  }

  /** What a reader has of `octets` and the chunked body `code` behind them. */
  lemma HeadThenBody(octets: seq<Byte>, head: Head, code: seq<Byte>)
    requires IsHead(octets, head)
    ensures var a := EMPTY.(raw := octets + code);
            && Heads(a).Ok? && Heads(a).value.head == Some(head) && BodyOf(Heads(a).value) == code
            && (ShortLines(a) <==> Dechunk.ShortLines(code, Dechunk.START))
            && match Dechunk.Settle(code, Dechunk.START)
               case Ok(p) => Read(a).Ok? && Read(a).value.head == Some(head.(framing := Chunked(p)))
               case Err(e) => Read(a) == Err(BadChunks(e))
  {
    hide Heads, Dechunk.Settle, Dechunk.ShortLines;
    var a := EMPTY.(raw := octets);
    HeadsExtend(a, code);
    HeadKept(Heads(a).value.(raw := octets + code));
    assert (octets + code)[|octets|..] == code;
  }

  /** Whether every way to cut `raw` into pushes is accepted and finishes with `out`. */
  ghost predicate EveryCutFinishes(raw: seq<Byte>, out: (nat, seq<Field>, seq<Byte>)) {
    forall pieces: seq<seq<Byte>> | Flatten(pieces) == raw ::
      PushAll(EMPTY, pieces).Ok? && Finish(PushAll(EMPTY, pieces).value) == Ok(out)
  }

  /** A chunked answer finishes with its status, its fields and its chunks' data joined, however the
      connection cuts it, exactly when each line of its body is shorter than `MAX_LINE`. */
  lemma EveryCutFinishesIff(octets: seq<Byte>, head: Head, b: C.Body)
    requires IsHead(octets, head) && C.WellFormed(b) && |octets + C.Encode(b)| <= MAX_BODY
    ensures EveryCutFinishes(octets + C.Encode(b), (head.status, head.fields, C.Joined(b.chunks))) <==> C.ShortBody(b)
  {
    hide Read, Heads, ShortLines, IsHead, C.Encode, C.WellFormed, C.ShortBody, Dechunk.Settle, Dechunk.ShortLines;
    var raw := octets + C.Encode(b);
    OnePush(octets, head, b);
    EveryCutIffShortLines(raw);
    ReadEmpty();
    var out := (head.status, head.fields, C.Joined(b.chunks));
    if EveryCutAgrees(raw) {
      assert EveryCutFinishes(raw, out);
    } else {
      var pieces: seq<seq<Byte>> :| Flatten(pieces) == raw && PushAll(EMPTY, pieces) != Push(EMPTY, raw);
      SplitIndependence(EMPTY, pieces);
      assert PushAll(EMPTY, pieces).Err?;
    }
  }

  lemma OnePush(octets: seq<Byte>, head: Head, b: C.Body)
    requires IsHead(octets, head) && C.WellFormed(b) && |octets + C.Encode(b)| <= MAX_BODY
    ensures var raw := octets + C.Encode(b);
            && Push(EMPTY, raw).Ok? && Whole(Push(EMPTY, raw).value)
            && Finish(Push(EMPTY, raw).value) == Ok((head.status, head.fields, C.Joined(b.chunks)))
            && (ShortLines(EMPTY.(raw := raw)) <==> C.ShortBody(b))
  {
    hide Read, Heads, ShortLines, C.Encode, C.WellFormed, C.ShortBody, Dechunk.Settle, Dechunk.ShortLines;
    var code := C.Encode(b);
    HeadThenBody(octets, head, code);
    MatchesSelf(code, []);
    assert code + [] == code && [] + (octets + code) == octets + code;
    C.ReadEncoded(code, Dechunk.START, b);
    assert [] + C.Joined(b.chunks) == C.Joined(b.chunks);
  }

  // ---- A long line ----

  const STATUS_LINE: seq<Byte> := [72, 32, 50, 48, 48]
  const CODING_LINE: seq<Byte> := TRANSFER_ENCODING + [58] + CHUNKED
  const HEAD_OCTETS: seq<Byte> := STATUS_LINE + CRLF + CODING_LINE + BLANK_LINE
  const HEAD := Head(200, [Field(TRANSFER_ENCODING, CHUNKED)], |HEAD_OCTETS|, Chunked(Dechunk.START))

  lemma HeadStands()
    ensures IsHead(HEAD_OCTETS, HEAD)
  {
    hide ParseHead, Split, First;
    var a := EMPTY.(raw := HEAD_OCTETS);
    BlankAt();
    HeadParses();
    assert HEAD_OCTETS[0..|HEAD_OCTETS| - 4] == STATUS_LINE + CRLF + CODING_LINE;
    CodingFrames();
    assert TakeHead(a, |HEAD_OCTETS| - 4).Ok?;
  }

  lemma BlankAt()
    ensures First(HEAD_OCTETS, BLANK_LINE, 0) == Some(|HEAD_OCTETS| - 4)
  {
    var end := |HEAD_OCTETS| - 4;
    forall j: nat | j < end
      ensures !Matches(HEAD_OCTETS, BLANK_LINE, j)
    {
      assert HEAD_OCTETS[j..j + 4][0] == HEAD_OCTETS[j] && HEAD_OCTETS[j..j + 4][2] == HEAD_OCTETS[j + 2];
    }
    assert Matches(HEAD_OCTETS, BLANK_LINE, end);
    FirstFrom(HEAD_OCTETS, BLANK_LINE, 0, end);
  }

  lemma HeadParses()
    ensures ParseHead(STATUS_LINE + CRLF + CODING_LINE) == Some((200, [Field(TRANSFER_ENCODING, CHUNKED)]))
  {
    hide First, SecondToken, ParseUnsigned, FieldsOf;
    var head := STATUS_LINE + CRLF + CODING_LINE;
    C.NotIn(STATUS_LINE, CRLF);
    C.NotIn(CODING_LINE, CRLF);
    C.LineEnd(head, 0, STATUS_LINE);
    assert head[..|STATUS_LINE|] == STATUS_LINE && head[|STATUS_LINE| + 2..] == CODING_LINE;
    assert Split(CODING_LINE, CRLF) == [CODING_LINE];
    assert Split(head, CRLF) == [STATUS_LINE] + [CODING_LINE];
    StatusParses();
    FieldParses();
  }

  const STATUS: seq<Byte> := [50, 48, 48]

  lemma StatusParses()
    ensures ParseUnsigned(SecondToken(STATUS_LINE), 10, 0xFFFF) == Some(200)
  {
    hide TrimStart, WhiteHead, TokenLen;
    StatusTrims();
    StatusTokens();
    assert STATUS[..3] == STATUS;
    assert STATUS[..2] == [50, 48] && [50, 48][..1] == [50] && [50][..0] == [];
    assert Digits([50], 10) == Some(2);
    assert Digits([50, 48], 10) == Some(20);
  }

  lemma StatusTrims()
    ensures TrimStart(STATUS_LINE) == STATUS_LINE && TrimStart(STATUS_LINE[1..]) == STATUS
  {
    hide IsWhite;
    NotWhite(STATUS_LINE);
    NotWhite(STATUS);
    assert STATUS_LINE[1..][..1] == [32] && STATUS_LINE[1..][1..] == STATUS;
    assert IsWhite([32]) by { SpaceIsWhite(); }
    assert WhiteHead(STATUS_LINE[1..]) == 1;
  }

  lemma SpaceIsWhite()
    ensures IsWhite([32])
  {
  }

  lemma NotWhite(s: seq<Byte>)
    requires s != [] && 32 < s[0] < 127
    ensures WhiteHead(s) == 0
  {
  }

  lemma StatusTokens()
    ensures TokenLen(STATUS_LINE) == 1 && TokenLen(STATUS) == 3
  {
    assert STATUS_LINE[1..][..1] == [32] && WhiteHead(STATUS_LINE[1..]) > 0;
    assert STATUS_LINE[..1] == [72] && WhiteHead(STATUS_LINE) == 0;
    assert STATUS[1..] == [48, 48] && [48, 48][1..] == [48] && [48][1..] == [];
    assert TokenLen([48]) == 1;
    assert TokenLen([48, 48]) == 2;
  }

  lemma FieldParses()
    ensures FieldsOf([CODING_LINE]) == [Field(TRANSFER_ENCODING, CHUNKED)]
  {
    var colon := |TRANSFER_ENCODING|;
    forall j: nat | j < colon
      ensures !Matches(CODING_LINE, [58], j)
    {
      assert CODING_LINE[j..j + 1] == [TRANSFER_ENCODING[j]];
    }
    assert Matches(CODING_LINE, [58], colon);
    FirstFrom(CODING_LINE, [58], 0, colon);
    assert CODING_LINE[..colon] == TRANSFER_ENCODING && CODING_LINE[colon + 1..] == CHUNKED;
    C.NothingToTrim(TRANSFER_ENCODING);
    C.NothingToTrim(CHUNKED);
    assert FieldsOf([CODING_LINE][1..]) == [];
  }

  lemma CodingFrames()
    ensures FramingOf(200, [Field(TRANSFER_ENCODING, CHUNKED)]) == Ok(Chunked(Dechunk.START))
  {
    assert LowerAll(TRANSFER_ENCODING) == TRANSFER_ENCODING && LowerAll(CHUNKED) == CHUNKED;
    assert Matches(CHUNKED, CHUNKED, 0);
    assert First(CHUNKED, CHUNKED, 0) == Some(0);
  }

  /** A body of no chunks with one long trailer field. */
  function LongTrailer(line: seq<Byte>): C.Body { C.Body([], [48], [line]) }

  /** An answer with a trailer line of `MAX_LINE` octets or more is accepted in one push, with nothing in its
      body, and refused when the line's CR and its LF come in different pushes. */
  lemma LongTrailerCut(line: seq<Byte>)
    requires C.Plain(line) && |line| >= Dechunk.MAX_LINE && |HEAD_OCTETS| + |line| + 7 <= MAX_BODY
    ensures var raw := HEAD_OCTETS + C.Encode(LongTrailer(line));
            var cut := |HEAD_OCTETS| + 3 + |line| + 1;
            && Push(EMPTY, raw).Ok? && Finish(Push(EMPTY, raw).value) == Ok((200, HEAD.fields, []))
            && PushAll(EMPTY, [raw[..cut], raw[cut..]]) == Err(BadChunks(Dechunk.LineTooLong))
  {
    hide Read, Heads, IsHead, ShortLines, First, Dechunk.Settle, Dechunk.ShortLines, Dechunk.ChunkSize, C.Plain,
         C.ShortBody, C.WellFormed, C.Encode, Finish, Whole;
    var b := LongTrailer(line);
    var code := C.Encode(b);
    HeadStands();
    LastChunk();
    LongTrailerCode(line);
    OnePush(HEAD_OCTETS, HEAD, b);
    var raw, cut := HEAD_OCTETS + code, |HEAD_OCTETS| + 3 + |line| + 1;
    var part := Part(line);
    assert raw[..cut] == HEAD_OCTETS + part;
    HeadThenBody(HEAD_OCTETS, HEAD, part);
    LongTrailerPart(line);
    assert [] + raw[..cut] == raw[..cut];
  }

  lemma LastChunk()
    ensures C.Plain([48]) && Dechunk.ChunkSize([48]) == Some(0) && C.SizeOf([48], 0)
  {
    hide Dechunk.ChunkSize, C.SizeOf, C.Plain;
    C.HexLine(0);
    C.SizeIff([48], 0);
    assert Hex(0) == [48];
  }

  lemma LongTrailerCode(line: seq<Byte>)
    requires C.Plain(line) && line != []
    ensures C.WellFormed(LongTrailer(line)) && C.Joined(LongTrailer(line).chunks) == []
    ensures C.Encode(LongTrailer(line)) == Part(line) + [LF, CR, LF]
  {
    hide C.Plain, Dechunk.ChunkSize, C.SizeOf;
    LastChunk();
    assert C.EncodeTrailer([line]) == line + CRLF + C.EncodeTrailer([]);
    assert line + CRLF + CRLF == line + [CR] + [LF, CR, LF];
    assert [48] + CRLF + (line + [CR] + [LF, CR, LF]) == Part(line) + [LF, CR, LF];
  }

  /** The body of a long trailer up to the CR of its line. */
  function Part(line: seq<Byte>): seq<Byte> { [48] + CRLF + line + [CR] }

  lemma LongTrailerPart(line: seq<Byte>)
    requires C.Plain(line) && |line| >= Dechunk.MAX_LINE
    ensures Dechunk.Settle(Part(line), Dechunk.START) == Err(Dechunk.LineTooLong)
  {
    hide Dechunk.ChunkSize, Dechunk.ShortLines, Dechunk.Settle, C.Plain, First;
    var part := Part(line);
    LastChunk();
    assert Matches(part, [48], 0) && Matches(part, CRLF, 1);
    C.SizeStep(part, Dechunk.START, [48], 0);
    NoLineEnd(line);
    LongWait(part, C.AfterSize(Dechunk.START, [48], 0));
  }

  lemma LongWait(body: seq<Byte>, p: Dechunk.Progress)
    requires p.at <= |body| && p.data.None? && !p.done
    requires First(body, CRLF, p.at).None? && |body| - p.at > Dechunk.MAX_LINE
    ensures Dechunk.Settle(body, p) == Err(Dechunk.LineTooLong)
  {
    hide Dechunk.ChunkSize, First;
  }

  lemma NoLineEnd(line: seq<Byte>)
    requires C.Plain(line)
    ensures First(Part(line), CRLF, 3).None?
  {
    hide Matches, Part;
    forall j: nat | 3 <= j
      ensures !Matches(Part(line), CRLF, j)
    {
      assert !Matches(line, CRLF, j - 3);
      NoLineEndAt(line, j);
    }
  }

  lemma NoLineEndAt(line: seq<Byte>, j: nat)
    requires 3 <= j && !Matches(line, CRLF, j - 3)
    ensures !Matches(Part(line), CRLF, j)
  {
    var part := Part(line);
    if j + 2 <= |part| {
      assert part[j..j + 2] == [part[j], part[j + 1]];
      if j + 2 < |part| {
        assert line[j - 3..j - 1] == [line[j - 3], line[j - 2]];
        assert part[j] == line[j - 3] && part[j + 1] == line[j - 2];
      } else {
        assert part[j + 1] == CR;
      }
    }
  }

  const LONG_LINE: seq<Byte> := seq(Dechunk.MAX_LINE, _ => 97)

  /** Such an answer, with a trailer line of 8192 octets. */
  lemma CutRefusesAccepted()
    ensures var raw := HEAD_OCTETS + C.Encode(LongTrailer(LONG_LINE));
            var cut := |HEAD_OCTETS| + Dechunk.MAX_LINE + 4;
            && Push(EMPTY, raw).Ok? && Finish(Push(EMPTY, raw).value) == Ok((200, HEAD.fields, []))
            && PushAll(EMPTY, [raw[..cut], raw[cut..]]) == Err(BadChunks(Dechunk.LineTooLong))
  {
    hide Push, PushAll, Finish, C.Encode, First;
    C.NotIn(LONG_LINE, CRLF);
    LongTrailerCut(LONG_LINE);
  }
}
