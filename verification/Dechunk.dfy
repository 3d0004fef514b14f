/** The chunked transfer coding (section 7.1 of RFC 9112), joined as it comes in. */
module Dechunk {
  import opened Bytes
  import opened Text

  const MAX_LINE := 8 * 1024

  datatype Error = ChunkTooLarge | NoLineEnd | LineTooLong | BadChunkSize

  /** How far a body has been read: everything the reader keeps but its search position. */
  datatype Progress = Progress(at: nat, data: Option<nat>, trailer: bool, done: bool, joined: seq<Byte>)

  const START := Progress(0, None, false, false, [])

  datatype Step = Next(p: Progress) | Wait | Fail(error: Error)

  /** The size a chunk-size line gives, its extensions left out. */
  function ChunkSize(line: seq<Byte>): Option<nat> {
    if ValidUtf8(line) then ParseUnsigned(Trim(Before(line, 59)), 16, USIZE_MAX) else None
  }

  function StepData(body: seq<Byte>, p: Progress): Step
    requires p.data.Some? && p.at <= |body|
  {
    var end := p.at + p.data.value + 2;
    if end > USIZE_MAX then Fail(ChunkTooLarge)
    else if |body| < end then Wait
    else if body[end - 2..end] != CRLF then Fail(NoLineEnd)
    else Next(Progress(end, None, p.trailer, p.done, p.joined + body[p.at..end - 2]))
  }

  /** What `line`, a chunk size or a field of the trailer, makes of the progress before it. */
  function StepOver(line: seq<Byte>, p: Progress): (s: Step)
    ensures s.Next? ==> s.p.at == p.at + |line| + 2
  {
    var q := p.(at := p.at + |line| + 2);
    if p.trailer then Next(q.(done := line == []))
    else
      var size := ChunkSize(line);
      if size.None? then Fail(BadChunkSize)
      else if size.value == 0 then Next(q.(trailer := true))
      else Next(q.(data := size))
  }

  function StepLine(body: seq<Byte>, p: Progress): Step
    requires p.at <= |body|
  {
    var found := First(body, CRLF, p.at);
    if found.None? then
      if |body| - p.at > MAX_LINE then Fail(LineTooLong) else Wait
    else StepOver(body[p.at..found.value], p)
  }

  /** One piece of the body, found by the plain search from the start of the piece. */
  function StepOf(body: seq<Byte>, p: Progress): (s: Step)
    requires p.at <= |body|
    ensures s.Next? ==> p.at < s.p.at <= |body|
  {
    if p.data.Some? then StepData(body, p) else StepLine(body, p)
  }

  /** The reference reader: all that can be read of `body`, with no memory of an earlier search. */
  function Settle(body: seq<Byte>, p: Progress): (r: Result<Progress, Error>)
    requires p.at <= |body|
    ensures r.Ok? ==> p.at <= r.value.at <= |body|
    decreases |body| - p.at
  {
    if p.done then Ok(p)
    else match StepOf(body, p)
      case Next(q) => Settle(body, q)
      case Wait => Ok(p)
      case Fail(e) => Err(e)
  }

  /** The body in pieces, each settled as it comes. */
  function Feed(seen: seq<Byte>, p: Progress, pieces: seq<seq<Byte>>): (r: Result<Progress, Error>)
    requires p.at <= |seen|
    decreases |pieces|
  {
    if pieces == [] then Ok(p)
    else
      var body := seen + pieces[0];
      match Settle(body, p)
      case Ok(q) => Feed(body, q, pieces[1..])
      case Err(e) => Err(e)
  }

  // ---- Split independence ----

  lemma StepExtends(body: seq<Byte>, more: seq<Byte>, p: Progress)
    requires p.at <= |body|
    ensures StepOf(body, p).Next? ==> StepOf(body + more, p) == StepOf(body, p)
    ensures StepOf(body, p).Fail? && StepOf(body, p).error != LineTooLong
            ==> StepOf(body + more, p) == StepOf(body, p)
  {
    hide ChunkSize, First;
    var whole := body + more;
    if p.data.Some? {
      var end := p.at + p.data.value + 2;
      if end <= |body| {
        assert whole[end - 2..end] == body[end - 2..end];
        assert whole[p.at..end - 2] == body[p.at..end - 2];
      }
    } else if First(body, CRLF, p.at).Some? {
      FirstExtends(body, more, CRLF, p.at);
      var end := First(body, CRLF, p.at).value;
      assert whole[p.at..end] == body[p.at..end];
    }
  }

  lemma {:induction false} SettleExtends(body: seq<Byte>, more: seq<Byte>, p: Progress)
    requires p.at <= |body|
    ensures var r := Settle(body, p);
            && (r.Ok? ==> Settle(body + more, p) == Settle(body + more, r.value))
            && (r.Err? && r.error != LineTooLong ==> Settle(body + more, p) == r)
    decreases |body| - p.at
  {
    if !p.done {
      StepExtends(body, more, p);
      var s := StepOf(body, p);
      if s.Next? {
        SettleExtends(body, more, s.p);
      }
    }
  }

  /** Settling what is settled changes nothing. */
  lemma {:induction false} SettleTwice(body: seq<Byte>, p: Progress)
    requires p.at <= |body| && Settle(body, p).Ok?
    ensures Settle(body, Settle(body, p).value) == Settle(body, p)
    decreases |body| - p.at
  {
    if !p.done && StepOf(body, p).Next? {
      SettleTwice(body, StepOf(body, p).p);
    }
  }

  /** Whatever pieces a body comes in, if no piece is refused the reader ends where the reference
      reader ends on the whole body, and a refusal for anything but a long line is its refusal. */
  lemma {:induction false} FeedIsSettle(seen: seq<Byte>, p: Progress, pieces: seq<seq<Byte>>)
    requires p.at <= |seen| && Settle(seen, p) == Ok(p)
    ensures var r := Feed(seen, p, pieces);
            r.Ok? || r.error != LineTooLong ==> r == Settle(seen + Flatten(pieces), p)
    decreases |pieces|
  {
    var all := seen + Flatten(pieces);
    if pieces == [] {
      assert all == seen;
    } else {
      var body := seen + pieces[0];
      var rest := Flatten(pieces[1..]);
      assert all == body + rest;
      SettleExtends(body, rest, p);
      var r := Settle(body, p);
      if r.Ok? {
        SettleTwice(body, p);
        FeedIsSettle(body, r.value, pieces[1..]);
      }
    }
  }

  /** Whether every line that `body` completes is shorter than `MAX_LINE`. */
  predicate ShortLines(body: seq<Byte>, p: Progress)
    requires p.at <= |body|
    decreases |body| - p.at
  {
    !p.done ==>
      && (p.data.None? && First(body, CRLF, p.at).Some? ==> First(body, CRLF, p.at).value - p.at < MAX_LINE)
      && (StepOf(body, p).Next? ==> ShortLines(body, StepOf(body, p).p))
  }

  /** With short lines only, a prefix is refused for a long line only when the whole body is. */
  lemma {:induction false} ShortLinesPrefix(body: seq<Byte>, more: seq<Byte>, p: Progress)
    requires p.at <= |body| && ShortLines(body + more, p)
    ensures Settle(body, p) == Err(LineTooLong) ==> Settle(body + more, p) == Err(LineTooLong)
    ensures Settle(body, p).Ok? ==> ShortLines(body + more, Settle(body, p).value)
    decreases |body| - p.at
  {
    if !p.done {
      StepExtends(body, more, p);
      var s := StepOf(body, p);
      if s.Next? {
        ShortLinesPrefix(body, more, s.p);
      } else if s.Fail? && s.error == LineTooLong {
        var found := First(body + more, CRLF, p.at);
        if found.Some? && found.value + 2 <= |body| {
          MatchesExtends(body, more, CRLF, found.value);
        }
      }
    }
  }

  lemma {:induction false} ShortLinesFeed(seen: seq<Byte>, p: Progress, pieces: seq<seq<Byte>>)
    requires p.at <= |seen| && Settle(seen, p) == Ok(p)
    requires ShortLines(seen + Flatten(pieces), p)
    ensures Feed(seen, p, pieces) == Settle(seen + Flatten(pieces), p)
    decreases |pieces|
  {
    FeedIsSettle(seen, p, pieces);
    if pieces != [] {
      var body := seen + pieces[0];
      var rest := Flatten(pieces[1..]);
      assert seen + Flatten(pieces) == body + rest;
      ShortLinesPrefix(body, rest, p);
      if Settle(body, p).Ok? {
        SettleExtends(body, rest, p);
        SettleTwice(body, p);
        ShortLinesFeed(body, Settle(body, p).value, pieces[1..]);
      }
    }
  }

  /** A step that ends by `cut` is the same step on the body up to `cut`. */
  lemma StepShrinks(body: seq<Byte>, cut: nat, p: Progress)
    requires p.at <= cut <= |body|
    requires StepOf(body, p).Next? && StepOf(body, p).p.at <= cut
    ensures StepOf(body[..cut], p) == StepOf(body, p)
  {
    hide ChunkSize, First;
    var part, rest := body[..cut], body[cut..];
    assert body == part + rest;
    if p.data.None? {
      MatchesExtends(part, rest, CRLF, First(body, CRLF, p.at).value);
      assert First(part, CRLF, p.at).Some?;
    }
    StepExtends(part, rest, p);
  }

  /** A long line refuses the body that is cut between its CR and its LF. */
  lemma {:induction false} LongLineCut(body: seq<Byte>, p: Progress) returns (cut: nat)
    requires p.at <= |body| && !ShortLines(body, p)
    ensures p.at <= cut <= |body| && Settle(body[..cut], p) == Err(LineTooLong)
    decreases |body| - p.at
  {
    var found := First(body, CRLF, p.at);
    if p.data.None? && found.Some? && found.value - p.at >= MAX_LINE {
      cut := found.value + 1;
      var part := body[..cut];
      assert body == part + body[cut..];
      if First(part, CRLF, p.at).Some? {
        FirstExtends(part, body[cut..], CRLF, p.at);
      }
    } else {
      var q := StepOf(body, p).p;
      cut := LongLineCut(body, q);
      StepShrinks(body, cut, p);
    }
  }

  /** Whether every way to cut `body` gives `r`. */
  ghost predicate EveryCutGives(body: seq<Byte>, r: Result<Progress, Error>) {
    forall pieces: seq<seq<Byte>> | Flatten(pieces) == body :: Feed([], START, pieces) == r
  }

  lemma LongLineWitness(body: seq<Byte>) returns (pieces: seq<seq<Byte>>)
    requires !ShortLines(body, START)
    ensures Flatten(pieces) == body && Feed([], START, pieces) == Err(LineTooLong)
  {
    var cut := LongLineCut(body, START);
    var head, tail := body[..cut], body[cut..];
    pieces := [head, tail];
    assert pieces[1..] == [tail];
    assert Flatten([tail]) == tail + Flatten<Byte>([]) == tail;
    assert [] + head == head;
  }

  /** Whether the last line of `body`, the one that no CRLF ends, is longer than `MAX_LINE`. */
  predicate LongTail(body: seq<Byte>, p: Progress)
    requires p.at <= |body|
    decreases |body| - p.at
  {
    !p.done &&
    if p.data.None? && First(body, CRLF, p.at).None? then |body| - p.at > MAX_LINE
    else StepOf(body, p).Next? && LongTail(body, StepOf(body, p).p)
  }

  lemma {:induction false} LongTailIff(body: seq<Byte>, p: Progress)
    requires p.at <= |body|
    ensures Settle(body, p) == Err(LineTooLong) <==> LongTail(body, p)
    decreases |body| - p.at
  {
    hide ChunkSize, First;
    if !p.done && StepOf(body, p).Next? {
      LongTailIff(body, StepOf(body, p).p);
    }
  }

  /** Every way to cut `body` gives the verdict of the whole body exactly when each line the body
      completes is shorter than `MAX_LINE`, or its last line has no end and is longer. */
  lemma SplitIndependence(body: seq<Byte>)
    ensures EveryCutGives(body, Settle(body, START)) <==> (ShortLines(body, START) || LongTail(body, START))
  {
    LongTailIff(body, START);
    if !ShortLines(body, START) {
      var pieces := LongLineWitness(body);
    }
    if ShortLines(body, START) || Settle(body, START) == Err(LineTooLong) {
      forall pieces: seq<seq<Byte>> | Flatten(pieces) == body
        ensures Feed([], START, pieces) == Settle(body, START)
      {
        assert [] + body == body;
        if ShortLines(body, START) {
          ShortLinesFeed([], START, pieces);
        } else {
          FeedIsSettle([], START, pieces);
        }
      }
    }
  }
}
