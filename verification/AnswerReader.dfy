/** The reader of an HTTP/1.1 answer as the program runs it. */
module AnswerReader {
  import opened Bytes
  import opened Http1
  import opened Reader
  import Dechunk

  class Http1Answer {
    var raw: seq<Byte>
    var headStart: nat
    var searched: nat
    /** The head once it has come; a chunked body's progress is in `dechunker`. */
    var head: Option<Head>
    const dechunker: Dechunker
    /** Every window start any push has compared in its search for the end of a head, in order. */
    ghost var probes: seq<nat>

    ghost function HeadValue(): Option<Head>
      reads this, dechunker
    {
      if head.Some? && head.value.framing.Chunked?
      then Some(head.value.(framing := Chunked(dechunker.Value()))) else head
    }

    ghost function Value(): Answer
      reads this, dechunker
    {
      Answer(raw, headStart, HeadValue())
    }

    function SearchFrom(): nat
      reads this
    {
      if searched - 3 > headStart then searched - 3 else headStart
    }

    ghost predicate Searching()
      reads this, dechunker
    {
      && headStart <= searched <= |raw|
      && (forall j: nat | headStart <= j && j + 3 < searched :: !Matches(raw, BLANK_LINE, j))
      && Increasing(probes) && Below(probes, SearchFrom())
      && dechunker.Valid() && dechunker.Value() == Dechunk.START && dechunker.seen == []
    }

    ghost predicate Valid()
      reads this, dechunker
    {
      && InRange(Value()) && Increasing(probes) && Below(probes, |raw|)
      && (head.None? ==> Searching())
      && (head.Some? && head.value.framing.Chunked? ==>
            dechunker.Valid() && dechunker.seen == raw[head.value.bodyStart..])
    }

    constructor ()
      ensures Valid() && Value() == EMPTY && probes == [] && fresh(dechunker)
    {
      raw, headStart, searched, head := [], 0, 0, None;
      dechunker := new Dechunker();
      probes := [];
    }

    /** The head whose blank line is at `end`: an interim one moves the start on. */
    method TakeHeadAt(end: nat) returns (failed: Option<Error>)
      requires head.None? && headStart <= end && end + 4 <= |raw| && dechunker.Value() == Dechunk.START
      modifies this`headStart, this`searched, this`head
      ensures match TakeHead(old(Value()), end)
              case Ok(a) => failed.None? && Value() == a
              case Err(e) => failed == Some(e)
      ensures failed.None? && head.None? ==> headStart == searched == end + 4
      ensures failed.None? && head.Some? ==>
                && head.value.bodyStart == end + 4
                && (head.value.framing.Chunked? ==> head.value.framing.progress == Dechunk.START)
    {
      hide ParseHead;
      var parsed := ParseHead(raw[headStart..end]);
      if parsed.None? {
        return Some(BadStatusLine);
      }
      var (status, fields) := parsed.value;
      if Interim(status) {
        headStart := end + 4;
        searched := headStart;
        return None;
      }
      var framing := FramingOf(status, fields);
      if framing.Err? {
        return Some(framing.error);
      }
      head := Some(Head(status, fields, end + 4, framing.value));
      return None;
    }

    /** The next blank line, looked for from where the last search stopped. */
    method SearchBlank() returns (found: Option<nat>)
      requires Searching()
      modifies this`probes
      ensures found == First(raw, BLANK_LINE, headStart) && old(probes) <= probes && Increasing(probes)
      ensures found.Some? ==> Below(probes, found.value + 1)
      ensures found.None? ==> Below(probes, if |raw| - 3 > headStart then |raw| - 3 else headStart)
    {
      ghost var compared;
      var from := SearchFrom();
      found, compared := FindWindow(raw, BLANK_LINE, from);
      FirstFrom(raw, BLANK_LINE, headStart, from);
      ProbesGrow(probes, from, if found.Some? then found.value + 1 else if |raw| >= 3 then |raw| - 3 else 0);
      probes := probes + compared;
    }

    /** Looks for the heads in what has come, from where the search was left. */
    method FindHeads() returns (failed: Option<Error>)
      requires head.None? && Searching()
      modifies this
      ensures raw == old(raw) && old(probes) <= probes && Increasing(probes) && Below(probes, |raw|)
      ensures match Heads(old(Value()))
              case Ok(a) => failed.None? && Value() == a && InRange(a)
              case Err(e) => failed == Some(e)
      ensures failed.None? && head.None? ==> Searching()
      ensures failed.None? && head.Some? && head.value.framing.Chunked? ==>
                head.value.framing.progress == Dechunk.START
    {
      hide TakeHead, Heads, First;
      while head.None?
        invariant raw == old(raw) && old(probes) <= probes && Increasing(probes) && Below(probes, |raw|)
        invariant InRange(Value()) && Heads(Value()) == Heads(old(Value()))
        invariant head.None? ==> Searching()
        invariant head.Some? && head.value.framing.Chunked? ==>
                    head.value.framing.progress == Dechunk.START == dechunker.Value()
        decreases head.None?, |raw| - headStart
      {
        var found := SearchBlank();
        HeadsStep(Value(), found);
        if found.None? {
          searched := |raw|;
          return None;
        }
        failed := TakeHeadAt(found.value);
        if failed.Some? {
          return;
        }
      }
      HeadKept(Value());
      return None;
    }

    /** Takes the next of the answer and says whether the answer is whole: the state is the one the
        reference reader reaches, and no window start is compared that any push compared before. */
    method Push(bytes: seq<Byte>) returns (r: Result<bool, Error>)
      requires Valid()
      modifies this, dechunker
      ensures old(probes) <= probes && old(dechunker.probes) <= dechunker.probes
      ensures Increasing(probes) && Below(probes, |raw|)
      ensures match Http1.Push(old(Value()), bytes)
              case Ok(a) => Valid() && Value() == a && r == Ok(Whole(a))
              case Err(e) => r == Err(e)
    {
      hide Heads, Dechunk.Settle;
      Widen(bytes);
      raw := raw + bytes;
      if |raw| > MAX_BODY {
        return Err(TooLarge);
      }
      ghost var start := Value();
      assert start == old(Value()).(raw := raw);
      if head.None? {
        var failed := FindHeads();
        if failed.Some? {
          return Err(failed.value);
        }
      } else {
        HeadKept(start);
      }
      if head.None? {
        return Ok(false);
      }
      var body := raw[head.value.bodyStart..];
      match head.value.framing {
        case Length(n) => return Ok(|body| >= n);
        case Close => return Ok(false);
        case Chunked(_) =>
          var advanced := dechunker.Advance(body);
          if advanced.Err? {
            return Err(BadChunks(advanced.error));
          }
          return Ok(advanced.value);
      }
    }

    /** What was searched before a push has no blank line after it either. */
    lemma Widen(bytes: seq<Byte>)
      requires Valid()
      ensures head.None? ==>
                forall j: nat | headStart <= j && j + 3 < searched :: !Matches(raw + bytes, BLANK_LINE, j)
    {
      if head.None? {
        forall j: nat | headStart <= j && j + 3 < searched
          ensures !Matches(raw + bytes, BLANK_LINE, j)
        {
          MatchesExtends(raw, bytes, BLANK_LINE, j);
        }
      }
    }
  }

  /** One round of the reference reader's search for heads. */
  lemma HeadsStep(a: Answer, end: Option<nat>)
    requires InRange(a) && a.head.None? && end == First(a.raw, BLANK_LINE, a.headStart)
    ensures end.None? ==> Heads(a) == Ok(a)
    ensures end.Some? && TakeHead(a, end.value).Err? ==> Heads(a) == TakeHead(a, end.value)
    ensures end.Some? && TakeHead(a, end.value).Ok? ==>
              var b := TakeHead(a, end.value).value;
              InRange(b) && Heads(a) == Heads(b)
  {
    hide ParseHead;
    if end.Some? && TakeHead(a, end.value).Ok? {
      var b := TakeHead(a, end.value).value;
      assert InRange(b);
      if b.head.Some? {
        HeadKept(b);
      }
    }
  }

  /** Over any run of pushes the searches together compare at most one window per octet: of the answer
      for the end of a head, of the body for the ends of its lines. */
  lemma ScanBound(a: Http1Answer)
    requires a.Valid()
    ensures |a.probes| <= |a.raw|
    ensures a.head.Some? && a.head.value.framing.Chunked? ==>
              |a.dechunker.probes| <= |a.raw| - a.head.value.bodyStart
  {
    CountBelow(a.probes, |a.raw|);
    if a.head.Some? && a.head.value.framing.Chunked? {
      CountBelow(a.dechunker.probes, |a.dechunker.seen|);
    }
  }
}
