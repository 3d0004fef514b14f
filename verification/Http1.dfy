/** An HTTP/1.1 answer and where it ends (section 6.3 of RFC 9112). Header fields are kept as the
    octets they arrived in. */
module Http1 {
  import opened Bytes
  import opened Text
  import Dechunk

  const MAX_BODY := 512 * 1024
  const BLANK_LINE: seq<Byte> := [CR, LF, CR, LF]
  const TRANSFER_ENCODING: seq<Byte> :=
    [116, 114, 97, 110, 115, 102, 101, 114, 45, 101, 110, 99, 111, 100, 105, 110, 103]
  const CONTENT_LENGTH: seq<Byte> := [99, 111, 110, 116, 101, 110, 116, 45, 108, 101, 110, 103, 116, 104]
  const CHUNKED: seq<Byte> := [99, 104, 117, 110, 107, 101, 100]

  datatype Error = TooLarge | BadStatusLine | BadContentLength | BadChunks(error: Dechunk.Error)
    | EmptyResponse | TruncatedHead | TruncatedBody | TruncatedChunks

  datatype Field = Field(name: seq<Byte>, value: seq<Byte>)

  datatype Framing = Length(length: nat) | Chunked(progress: Dechunk.Progress) | Close

  datatype Head = Head(status: nat, fields: seq<Field>, bodyStart: nat, framing: Framing)

  /** An answer as far as it has come: all a reader keeps but its search positions. */
  datatype Answer = Answer(raw: seq<Byte>, headStart: nat, head: Option<Head>)

  const EMPTY := Answer([], 0, None)

  // ---- The head ----

  /** How many octets of `s` come before its first white space. */
  function TokenLen(s: seq<Byte>): (n: nat)
    ensures n <= |s|
  {
    if s == [] || WhiteHead(s) > 0 then 0 else 1 + TokenLen(s[1..])
  }

  /** The second of the tokens that white space separates; empty when there is none. */
  function SecondToken(s: seq<Byte>): seq<Byte> {
    var first := TrimStart(s);
    var second := TrimStart(first[TokenLen(first)..]);
    second[..TokenLen(second)]
  }

  function FieldsOf(lines: seq<seq<Byte>>): seq<Field> {
    if lines == [] then []
    else
      var colon := First(lines[0], [58], 0);
      if colon.None? then FieldsOf(lines[1..])
      else [Field(Trim(lines[0][..colon.value]), Trim(lines[0][colon.value + 1..]))] + FieldsOf(lines[1..])
  }

  function ParseHead(head: seq<Byte>): Option<(nat, seq<Field>)> {
    var lines := Split(head, CRLF);
    var status := ParseUnsigned(SecondToken(lines[0]), 10, 0xFFFF);
    if status.None? then None else Some((status.value, FieldsOf(lines[1..])))
  }

  function FieldNamed(fields: seq<Field>, name: seq<Byte>): Option<seq<Byte>> {
    if fields == [] then None
    else if LowerAll(fields[0].name) == name then Some(fields[0].value)
    else FieldNamed(fields[1..], name)
  }

  function FramingOf(status: nat, fields: seq<Field>): Result<Framing, Error> {
    if status == 204 || status == 304 then Ok(Length(0))
    else
      var coding := FieldNamed(fields, TRANSFER_ENCODING);
      if coding.Some? && First(LowerAll(coding.value), CHUNKED, 0).Some? then Ok(Chunked(Dechunk.START))
      else
        var length := FieldNamed(fields, CONTENT_LENGTH);
        if length.None? then Ok(Close)
        else
          var n := ParseUnsigned(length.value, 10, USIZE_MAX);
          if n.None? then Err(BadContentLength) else Ok(Length(n.value))
  }

  predicate Interim(status: nat) { 100 <= status < 200 && status != 101 }

  /** What the head between `start` and its blank line at `end` makes of an answer: an interim head
      moves the start on, the final one gives the head. */
  function TakeHead(a: Answer, end: nat): Result<Answer, Error>
    requires a.headStart <= end && end + 4 <= |a.raw|
  {
    var parsed := ParseHead(a.raw[a.headStart..end]);
    if parsed.None? then Err(BadStatusLine)
    else
      var (status, fields) := parsed.value;
      if Interim(status) then Ok(a.(headStart := end + 4))
      else
        var framing := FramingOf(status, fields);
        if framing.Err? then Err(framing.error)
        else Ok(a.(head := Some(Head(status, fields, end + 4, framing.value))))
  }

  // ---- The reference reader ----

  predicate InRange(a: Answer) {
    && a.headStart <= |a.raw|
    && (a.head.Some? ==>
          && a.head.value.bodyStart <= |a.raw|
          && (a.head.value.framing.Chunked? ==>
                a.head.value.framing.progress.at <= |a.raw| - a.head.value.bodyStart))
  }

  /** All the heads that can be read, each found by a plain search from its start. */
  function Heads(a: Answer): (r: Result<Answer, Error>)
    requires InRange(a)
    ensures r.Ok? ==> InRange(r.value) && r.value.raw == a.raw
    decreases |a.raw| - a.headStart
  {
    if a.head.Some? then Ok(a)
    else
      var end := First(a.raw, BLANK_LINE, a.headStart);
      if end.None? then Ok(a)
      else
        var taken := TakeHead(a, end.value);
        if taken.Err? || taken.value.head.Some? then taken else Heads(taken.value)
  }

  function BodyOf(a: Answer): seq<Byte>
    requires InRange(a) && a.head.Some?
  {
    a.raw[a.head.value.bodyStart..]
  }

  /** All of a chunked body that can be read. */
  function Chunks(a: Answer): (r: Result<Answer, Error>)
    requires InRange(a)
    ensures r.Ok? ==> InRange(r.value) && r.value.raw == a.raw
  {
    if a.head.None? || !a.head.value.framing.Chunked? then Ok(a)
    else
      match Dechunk.Settle(BodyOf(a), a.head.value.framing.progress)
      case Ok(p) => Ok(a.(head := Some(a.head.value.(framing := Chunked(p)))))
      case Err(e) => Err(BadChunks(e))
  }

  /** All of an answer that can be read. */
  function Read(a: Answer): (r: Result<Answer, Error>)
    requires InRange(a)
    ensures r.Ok? ==> InRange(r.value) && r.value.raw == a.raw
  {
    var heads := Heads(a);
    if heads.Err? then heads else Chunks(heads.value)
  }

  function Push(a: Answer, bytes: seq<Byte>): (r: Result<Answer, Error>)
    requires InRange(a)
    ensures r.Ok? ==> InRange(r.value) && r.value.raw == a.raw + bytes
  {
    if |a.raw + bytes| > MAX_BODY then Err(TooLarge) else Read(a.(raw := a.raw + bytes))
  }

  function PushAll(a: Answer, pieces: seq<seq<Byte>>): (r: Result<Answer, Error>)
    requires InRange(a)
    ensures r.Ok? ==> InRange(r.value)
    decreases |pieces|
  {
    if pieces == [] then Ok(a)
    else
      var r := Push(a, pieces[0]);
      if r.Err? then r else PushAll(r.value, pieces[1..])
  }

  predicate Whole(a: Answer)
    requires InRange(a)
  {
    a.head.Some? &&
    match a.head.value.framing
    case Length(n) => |BodyOf(a)| >= n
    case Chunked(p) => p.done
    case Close => false
  }

  /** The status, the fields and the body once the connection has ended. */
  function Finish(a: Answer): Result<(nat, seq<Field>, seq<Byte>), Error>
    requires InRange(a)
  {
    if a.head.None? then Err(if a.raw == [] then EmptyResponse else TruncatedHead)
    else
      var h := a.head.value;
      match h.framing
      case Length(n) => if |BodyOf(a)| < n then Err(TruncatedBody) else Ok((h.status, h.fields, BodyOf(a)[..n]))
      case Chunked(p) => if p.done then Ok((h.status, h.fields, p.joined)) else Err(TruncatedChunks)
      case Close => Ok((h.status, h.fields, BodyOf(a)))
  }

  // ---- Split independence ----

  lemma TakeHeadExtends(a: Answer, more: seq<Byte>, end: nat)
    requires a.headStart <= end && end + 4 <= |a.raw|
    ensures var b := TakeHead(a, end);
            TakeHead(a.(raw := a.raw + more), end) == if b.Err? then b else Ok(b.value.(raw := a.raw + more))
  {
    hide ParseHead, FramingOf;
    assert (a.raw + more)[a.headStart..end] == a.raw[a.headStart..end];
  }

  lemma {:induction false} HeadsExtend(a: Answer, more: seq<Byte>)
    requires InRange(a)
    ensures var r, longer := Heads(a), a.(raw := a.raw + more);
            && (r.Ok? ==> Heads(longer) == Heads(r.value.(raw := a.raw + more)))
            && (r.Err? ==> Heads(longer) == r)
    decreases |a.raw| - a.headStart
  {
    hide TakeHead;
    if a.head.None? {
      var end := First(a.raw, BLANK_LINE, a.headStart);
      if end.Some? {
        FirstExtends(a.raw, more, BLANK_LINE, a.headStart);
        TakeHeadExtends(a, more, end.value);
        var taken := TakeHead(a, end.value);
        TakeHeadMoves(a, end.value);
        if taken.Ok? && taken.value.head.None? {
          HeadsExtend(taken.value, more);
        }
      }
    }
  }

  lemma TakeHeadMoves(a: Answer, end: nat)
    requires a.headStart <= end && end + 4 <= |a.raw| && a.head.None?
    ensures var b := TakeHead(a, end);
            b.Ok? ==> InRange(b.value) && b.value.raw == a.raw
                      && (b.value.head.None? ==> b.value.headStart == end + 4)
  {
    hide ParseHead;
  }

  lemma HeadsTwice(a: Answer)
    requires InRange(a) && Heads(a).Ok?
    ensures Heads(Heads(a).value) == Heads(a)
  {
    hide TakeHead;
    HeadsExtend(a, []);
    assert a.raw + [] == a.raw;
    assert a.(raw := a.raw + []) == a && Heads(a).value.(raw := a.raw + []) == Heads(a).value;
  }

  /** Reading all that has come and then all that comes is reading it all at once. */
  lemma ReadExtends(a: Answer, more: seq<Byte>)
    requires InRange(a)
    ensures var r, longer := Read(a), a.(raw := a.raw + more);
            && (r.Ok? ==> Read(longer) == Read(r.value.(raw := a.raw + more)))
            && (r.Err? && r.error != BadChunks(Dechunk.LineTooLong) ==> Read(longer) == r)
  {
    hide Heads, Chunks;
    HeadsExtend(a, more);
    var heads := Heads(a);
    if heads.Ok? {
      HeadsTwice(a);
      ChunksExtend(heads.value, more);
    }
  }

  lemma ChunksExtend(a: Answer, more: seq<Byte>)
    requires InRange(a) && Heads(a) == Ok(a)
    ensures var r, longer := Chunks(a), a.(raw := a.raw + more);
            && (r.Ok? ==> Read(longer) == Read(r.value.(raw := a.raw + more)))
            && (r.Err? && r.error != BadChunks(Dechunk.LineTooLong) ==> Read(longer) == r)
  {
    hide Dechunk.Settle;
    if a.head.Some? && a.head.value.framing.Chunked? {
      Dechunk.SettleExtends(BodyOf(a), more, a.head.value.framing.progress);
      assert BodyOf(a.(raw := a.raw + more)) == BodyOf(a) + more;
    }
  }

  lemma ReadTwice(a: Answer)
    requires InRange(a) && Read(a).Ok?
    ensures Read(Read(a).value) == Read(a)
  {
    ReadExtends(a, []);
    assert a.raw + [] == a.raw;
    assert Read(a).value.(raw := a.raw) == Read(a).value;
  }

  /** However an answer is cut into pushes, if none is refused the state is that of one push of the
      whole; a refusal that is not for a long chunk line refuses the whole as well. */
  lemma {:induction false} SplitIndependence(a: Answer, pieces: seq<seq<Byte>>)
    requires InRange(a) && Read(a) == Ok(a) && |a.raw| <= MAX_BODY
    ensures var r, once := PushAll(a, pieces), Push(a, Flatten(pieces));
            && (r.Ok? ==> once == r)
            && (r.Err? && r.error != BadChunks(Dechunk.LineTooLong) ==> once.Err?)
    decreases |pieces|
  {
    hide Read;
    if pieces == [] {
      assert a.raw + Flatten(pieces) == a.raw;
      assert a.(raw := a.raw) == a;
    } else {
      var first, rest := pieces[0], Flatten(pieces[1..]);
      var b := a.(raw := a.raw + first);
      assert a.raw + Flatten(pieces) == b.raw + rest;
      assert a.(raw := a.raw + Flatten(pieces)) == b.(raw := b.raw + rest);
      ReadExtends(b, rest);
      var r := Push(a, first);
      if r.Ok? {
        ReadTwice(b);
        SplitIndependence(r.value, pieces[1..]);
      }
    }
  }

  /** Whether every chunk or trailer line that `a` completes is shorter than `MAX_LINE`. */
  ghost predicate ShortLines(a: Answer)
    requires InRange(a)
  {
    var heads := Heads(a);
    heads.Ok? && heads.value.head.Some? && heads.value.head.value.framing.Chunked? ==>
      Dechunk.ShortLines(BodyOf(heads.value), heads.value.head.value.framing.progress)
  }

  lemma ShortLinesExtend(a: Answer, more: seq<Byte>)
    requires InRange(a) && ShortLines(a.(raw := a.raw + more))
    ensures var r, longer := Read(a), a.(raw := a.raw + more);
            && (r.Ok? ==> ShortLines(r.value.(raw := a.raw + more)))
            && (r.Err? ==> Read(longer) == r)
  {
    hide Heads, Dechunk.Settle, Dechunk.ShortLines;
    HeadsExtend(a, more);
    ReadExtends(a, more);
    var heads := Heads(a);
    if heads.Ok? && heads.value.head.Some? {
      HeadKept(heads.value);
      HeadKept(heads.value.(raw := a.raw + more));
      if heads.value.head.value.framing.Chunked? {
        assert BodyOf(heads.value.(raw := a.raw + more)) == BodyOf(heads.value) + more;
        Dechunk.ShortLinesPrefix(BodyOf(heads.value), more, heads.value.head.value.framing.progress);
        if Read(a).Ok? {
          HeadKept(Read(a).value.(raw := a.raw + more));
        }
      }
    }
  }

  lemma HeadKept(a: Answer)
    requires InRange(a) && a.head.Some?
    ensures Heads(a) == Ok(a)
  {
  }

  lemma {:induction false} ShortLinesPushAll(a: Answer, pieces: seq<seq<Byte>>)
    requires InRange(a) && Read(a) == Ok(a) && |a.raw + Flatten(pieces)| <= MAX_BODY
    requires ShortLines(a.(raw := a.raw + Flatten(pieces)))
    ensures PushAll(a, pieces) == Push(a, Flatten(pieces))
    decreases |pieces|
  {
    hide Read, Heads, ShortLines;
    SplitIndependence(a, pieces);
    if pieces != [] {
      var b, rest := a.(raw := a.raw + pieces[0]), Flatten(pieces[1..]);
      assert a.raw + Flatten(pieces) == b.raw + rest;
      assert a.(raw := a.raw + Flatten(pieces)) == b.(raw := b.raw + rest);
      ShortLinesExtend(b, rest);
      if Read(b).Ok? {
        ReadTwice(b);
        ReadExtends(b, rest);
        ShortLinesPushAll(Read(b).value, pieces[1..]);
      }
    }
  }

  /** An answer with a long line is refused when it is cut between that line's CR and LF. */
  lemma LongLineCut(raw: seq<Byte>) returns (cut: nat)
    requires |raw| <= MAX_BODY && Read(EMPTY.(raw := raw)).Ok? && !ShortLines(EMPTY.(raw := raw))
    ensures cut <= |raw| && Push(EMPTY, raw[..cut]) == Err(BadChunks(Dechunk.LineTooLong))
  {
    hide Dechunk.Settle, Dechunk.ShortLines, Heads;
    var a := EMPTY.(raw := raw);
    var h := Heads(a).value;
    assert h.raw == raw;
    HeadsFresh(a);
    var inner := Dechunk.LongLineCut(BodyOf(h), Dechunk.START);
    cut := h.head.value.bodyStart + inner;
    var part := EMPTY.(raw := raw[..cut]);
    assert raw == raw[..cut] + raw[cut..];
    HeadsShrink(part, raw[cut..]);
    assert raw[h.head.value.bodyStart..][..inner] == raw[..cut][h.head.value.bodyStart..];
    assert [] + raw[..cut] == raw[..cut];
  }

  lemma {:induction false} HeadsFresh(a: Answer)
    requires InRange(a) && a.head.None? && Heads(a).Ok? && Heads(a).value.head.Some?
    ensures var f := Heads(a).value.head.value.framing; f.Chunked? ==> f.progress == Dechunk.START
    decreases |a.raw| - a.headStart
  {
    hide ParseHead;
    var taken := TakeHead(a, First(a.raw, BLANK_LINE, a.headStart).value);
    if taken.value.head.None? {
      HeadsFresh(taken.value);
    }
  }

  /** A final head that ends inside `a` is found in `a` already. */
  lemma HeadsShrink(a: Answer, more: seq<Byte>)
    requires InRange(a) && a.head.None?
    requires var r := Heads(a.(raw := a.raw + more));
             r.Ok? && r.value.head.Some? && r.value.head.value.bodyStart <= |a.raw|
    ensures Heads(a).Ok? && Heads(a).value.head == Heads(a.(raw := a.raw + more)).value.head
  {
    hide Heads;
    HeadsExtend(a, more);
    var r := Heads(a);
    if r.Ok? {
      HeadsTwice(a);
      if r.value.head.None? {
        HeadsLate(r.value, more);
      } else {
        HeadKept(r.value.(raw := a.raw + more));
      }
    }
  }

  /** Whether every way to cut `raw` into pushes gives the state of one push. */
  ghost predicate EveryCutAgrees(raw: seq<Byte>) {
    forall pieces: seq<seq<Byte>> | Flatten(pieces) == raw :: PushAll(EMPTY, pieces) == Push(EMPTY, raw)
  }

  /** An accepted answer is accepted with the same outcome however it is cut exactly when every chunk
      or trailer line in it is shorter than `MAX_LINE`. */
  lemma EveryCutIffShortLines(raw: seq<Byte>)
    requires Push(EMPTY, raw).Ok?
    ensures EveryCutAgrees(raw) <==> ShortLines(EMPTY.(raw := raw))
  {
    hide Read, ShortLines;
    assert [] + raw == raw;
    if ShortLines(EMPTY.(raw := raw)) {
      ReadEmpty();
      forall pieces: seq<seq<Byte>> | Flatten(pieces) == raw
        ensures PushAll(EMPTY, pieces) == Push(EMPTY, raw)
      {
        ShortLinesPushAll(EMPTY, pieces);
      }
    } else {
      var cut := LongLineCut(raw);
      var pieces := [raw[..cut], raw[cut..]];
      assert pieces[1..] == [raw[cut..]] && Flatten(pieces[1..]) == raw[cut..] + Flatten<Byte>([]);
      assert Flatten(pieces) == raw;
      assert PushAll(EMPTY, pieces).Err?;
    }
  }

  lemma ReadEmpty()
    ensures Read(EMPTY) == Ok(EMPTY)
  {
    assert First(EMPTY.raw, BLANK_LINE, 0).None?;
  }

  /** A push that is not refused leaves the head it finds, and a whole answer whole with the same
      body. */
  lemma WholeStays(a: Answer, bytes: seq<Byte>)
    requires InRange(a) && Read(a) == Ok(a) && Push(a, bytes).Ok?
    ensures var b := Push(a, bytes).value;
            && (a.head.Some? ==> b.head.Some? && b.head.value.bodyStart == a.head.value.bodyStart
                                 && b.head.value.status == a.head.value.status
                                 && b.head.value.fields == a.head.value.fields)
            && (Whole(a) ==> Whole(b) && Finish(b) == Finish(a))
  {
    var b := Push(a, bytes).value;
    if a.head.Some? {
      assert b.raw[a.head.value.bodyStart..] == BodyOf(a) + bytes;
      if Whole(a) && a.head.value.framing.Length? {
        assert (BodyOf(a) + bytes)[..a.head.value.framing.length] == BodyOf(a)[..a.head.value.framing.length];
      }
    }
  }

  /** Where a whole answer ends in what has come. */
  function EndOf(a: Answer): nat
    requires InRange(a) && a.head.Some? && Whole(a)
  {
    match a.head.value.framing
    case Length(n) => a.head.value.bodyStart + n
    case Chunked(p) => a.head.value.bodyStart + p.at
    case Close => |a.raw|
  }

  /** The connection ending inside an answer is an error, never a short body, exactly unless the
      answer ends with the connection and its head has come. */
  lemma Truncation(raw: seq<Byte>, cut: nat)
    requires cut < |raw| <= MAX_BODY
    requires var r := Push(EMPTY, raw);
             && r.Ok? && r.value.head.Some?
             && (r.value.head.value.framing.Close? || (Whole(r.value) && EndOf(r.value) == |raw|))
    ensures var whole, part := Push(EMPTY, raw).value, Push(EMPTY, raw[..cut]);
            part.Ok? ==>
              (Finish(part.value).Ok? <==>
               whole.head.value.framing.Close? && cut >= whole.head.value.bodyStart)
  {
    hide Heads;
    var a := EMPTY.(raw := raw[..cut]);
    assert [] + raw == raw && [] + raw[..cut] == raw[..cut] && raw == raw[..cut] + raw[cut..];
    ReadExtends(a, raw[cut..]);
    var part := Push(EMPTY, raw[..cut]);
    if part.Ok? {
      ReadTwice(a);
      PrefixFinish(part.value, raw[cut..], Push(EMPTY, raw).value);
    }
  }

  lemma {:induction false} HeadsStart(a: Answer)
    requires InRange(a) && a.head.None? && Heads(a).Ok? && Heads(a).value.head.Some?
    ensures Heads(a).value.head.value.bodyStart >= a.headStart + 4
    decreases |a.raw| - a.headStart
  {
    hide ParseHead, FramingOf;
    var taken := TakeHead(a, First(a.raw, BLANK_LINE, a.headStart).value);
    if taken.value.head.None? {
      HeadsStart(taken.value);
    }
  }

  /** A head that had not come before `more` ends inside `more`. */
  lemma HeadsLate(a: Answer, more: seq<Byte>)
    requires InRange(a) && a.head.None? && Heads(a) == Ok(a)
    requires var r := Heads(a.(raw := a.raw + more)); r.Ok? && r.value.head.Some?
    ensures Heads(a.(raw := a.raw + more)).value.head.value.bodyStart > |a.raw|
  {
    hide ParseHead, FramingOf, First;
    var b := a.(raw := a.raw + more);
    var end := First(b.raw, BLANK_LINE, b.headStart).value;
    HeadsWait(a);
    if end + 4 <= |a.raw| {
      MatchesExtends(a.raw, more, BLANK_LINE, end);
    }
    var taken := TakeHead(b, end);
    if taken.value.head.None? {
      HeadsStart(taken.value);
    }
  }

  lemma HeadsWait(a: Answer)
    requires InRange(a) && a.head.None? && Heads(a) == Ok(a)
    ensures First(a.raw, BLANK_LINE, a.headStart).None?
  {
    hide ParseHead, FramingOf;
    var end := First(a.raw, BLANK_LINE, a.headStart);
    if end.Some? {
      var taken := TakeHead(a, end.value);
      HeadsGrow(taken.value);
    }
  }

  lemma {:induction false} HeadsGrow(a: Answer)
    requires InRange(a)
    ensures Heads(a).Ok? ==> Heads(a).value.headStart >= a.headStart
    decreases |a.raw| - a.headStart
  {
    hide ParseHead, FramingOf;
    if a.head.None? && First(a.raw, BLANK_LINE, a.headStart).Some? {
      var taken := TakeHead(a, First(a.raw, BLANK_LINE, a.headStart).value);
      if taken.Ok? && taken.value.head.None? {
        HeadsGrow(taken.value);
      }
    }
  }

  lemma PrefixFinish(part: Answer, more: seq<Byte>, whole: Answer)
    requires InRange(part) && InRange(whole) && more != [] && whole.head.Some?
    requires Read(part) == Ok(part) && Read(part.(raw := part.raw + more)) == Ok(whole)
    requires whole.head.value.framing.Close? || (Whole(whole) && EndOf(whole) == |whole.raw|)
    ensures Finish(part).Ok? <==> whole.head.value.framing.Close? && |part.raw| >= whole.head.value.bodyStart
  {
    var longer := part.(raw := part.raw + more);
    if part.head.None? {
      assert Heads(longer).Ok? && Heads(longer).value.head.Some?;
      assert Heads(longer).value.head.value.bodyStart == whole.head.value.bodyStart;
      ReadWait(part);
      HeadsLate(part, more);
    } else {
      assert Heads(longer) == Ok(longer);
    }
  }

  lemma ReadWait(a: Answer)
    requires InRange(a) && a.head.None? && Read(a) == Ok(a)
    ensures Heads(a) == Ok(a)
  {
    hide Heads;
  }

  lemma {:induction false} HeadsNotForSize(a: Answer)
    requires InRange(a)
    ensures Heads(a) != Err(TooLarge)
    decreases |a.raw| - a.headStart
  {
    hide ParseHead, First;
    var end := First(a.raw, BLANK_LINE, a.headStart);
    if a.head.None? && end.Some? {
      var taken := TakeHead(a, end.value);
      if taken.Ok? && taken.value.head.None? {
        HeadsNotForSize(taken.value);
      }
    }
  }

  lemma NotForSize(a: Answer)
    requires InRange(a)
    ensures Read(a) != Err(TooLarge)
  {
    hide Heads;
    HeadsNotForSize(a);
  }

  /** Pieces that are more than 512 KiB together are refused however they are cut, and none are refused for their
      size that are not. */
  lemma {:induction false} TooMuch(a: Answer, pieces: seq<seq<Byte>>)
    requires InRange(a) && |a.raw| <= 524_288
    ensures |a.raw| + |Flatten(pieces)| > 524_288 ==> PushAll(a, pieces).Err?
    ensures PushAll(a, pieces) == Err(TooLarge) ==> |a.raw| + |Flatten(pieces)| > 524_288
    decreases |pieces|
  {
    hide Read;
    if pieces != [] {
      var r := Push(a, pieces[0]);
      NotForSize(a.(raw := a.raw + pieces[0]));
      if r.Ok? {
        TooMuch(r.value, pieces[1..]);
      }
    }
  }
}
