/** The resumable readers in the form the program runs them: objects that remember how far a search
    has looked, so that a push never looks at a window twice. */
module Reader {
  import opened Bytes
  import opened Text
  import opened Dechunk

  ghost predicate Increasing(s: seq<nat>) {
    forall i, j | 0 <= i < j < |s| :: s[i] < s[j]
  }

  ghost predicate Below(s: seq<nat>, bound: nat) {
    forall i | 0 <= i < |s| :: s[i] < bound
  }

  /** The window starts from `from` up to `to`. */
  ghost function Range(from: nat, to: nat): (s: seq<nat>)
    ensures |s| == if from <= to then to - from else 0
  {
    seq(if from <= to then to - from else 0, i requires 0 <= i => from + i)
  }

  /** Increasing numbers below `bound` are at most `bound` many. */
  lemma {:induction false} CountBelow(s: seq<nat>, bound: nat)
    requires Increasing(s) && Below(s, bound)
    ensures |s| <= bound
    decreases |s|
  {
    if s != [] {
      CountBelow(s[..|s| - 1], s[|s| - 1]);
    }
  }

  lemma ProbesGrow(s: seq<nat>, from: nat, to: nat)
    requires Increasing(s) && Below(s, from)
    ensures Increasing(s + Range(from, to))
    ensures from <= to ==> Below(s + Range(from, to), to)
  {
  }

  /** The position of the first window equal to `pat`, compared one after the other from `from`;
      `probes` are the window starts compared, in order. */
  method FindWindow(s: seq<Byte>, pat: seq<Byte>, from: nat) returns (found: Option<nat>, ghost probes: seq<nat>)
    requires pat != []
    ensures found == First(s, pat, from)
    ensures found.Some? ==> probes == Range(from, found.value + 1)
    ensures found.None? ==> probes == Range(from, if |s| + 1 >= |pat| then |s| + 1 - |pat| else 0)
  {
    var i := from;
    probes := [];
    while i + |pat| <= |s|
      invariant from <= i && (i + |pat| <= |s| + 1 || i == from)
      invariant probes == Range(from, i)
      invariant forall j: nat | from <= j < i :: !Matches(s, pat, j)
      decreases |s| - i
    {
      probes := probes + [i];
      assert probes == Range(from, i + 1);
      if s[i..i + |pat|] == pat {
        FirstFrom(s, pat, from, i);
        return Some(i), probes;
      }
      i := i + 1;
    }
    FirstFrom(s, pat, from, i);
    return None, probes;
  }

  class Dechunker {
    var at: nat
    var searched: nat
    var data: Option<nat>
    var trailer: bool
    var done: bool
    var joined: seq<Byte>
    /** The body as the last push left it. */
    ghost var seen: seq<Byte>
    /** Every window start any push has compared in its search for a line end, in order. */
    ghost var probes: seq<nat>

    ghost function Value(): Progress
      reads this
    {
      Progress(at, data, trailer, done, joined)
    }

    ghost predicate Valid()
      reads this
    {
      && at <= searched <= |seen| && (data.Some? ==> searched == at)
      && (forall j: nat | at <= j && j + 1 < searched :: !Matches(seen, CRLF, j))
      && Increasing(probes) && Below(probes, SearchFrom())
    }

    /** Where the next search for a line end starts. */
    function SearchFrom(): nat
      reads this
    {
      if searched - 1 > at then searched - 1 else at
    }

    constructor ()
      ensures Valid() && Value() == START && seen == [] && probes == []
    {
      at, searched, data, trailer, done, joined := 0, 0, None, false, false, [];
      seen, probes := [], [];
    }

    /** Whether `r` and the present state are those of the reference step from `before`. */
    ghost predicate Stepped(body: seq<Byte>, before: Progress, r: Result<bool, Error>)
      requires before.at <= |body|
      reads this
    {
      match StepOf(body, before)
      case Next(q) => r == Ok(true) && Value() == q
      case Wait => r == Ok(false) && Value() == before
      case Fail(e) => r == Err(e)
    }

    /** The chunk's data, then CRLF; false when they have not all come. */
    method TakeData(body: seq<Byte>) returns (r: Result<bool, Error>)
      requires Valid() && seen == body && data.Some?
      modifies this
      ensures Stepped(body, old(Value()), r) && seen == body && probes == old(probes)
      ensures Increasing(probes) && Below(probes, |body|)
      ensures r.Ok? ==> Valid()
    {
      var end := at + data.value + 2;
      if end > USIZE_MAX {
        return Err(ChunkTooLarge);
      }
      if |body| < end {
        return Ok(false);
      }
      if body[end - 2..end] != CRLF {
        return Err(NoLineEnd);
      }
      joined := joined + body[at..end - 2];
      at, searched, data := end, end, None;
      return Ok(true);
    }

    /** The next line end, looked for from where the last search stopped. */
    method SearchLine(body: seq<Byte>) returns (found: Option<nat>)
      requires Valid() && seen == body
      modifies this`probes
      ensures found == First(body, CRLF, at) && old(probes) <= probes && Increasing(probes)
      ensures found.Some? ==> Below(probes, found.value + 1)
      ensures found.None? ==> Below(probes, if |body| - 1 > at then |body| - 1 else at)
    {
      ghost var compared;
      var from := SearchFrom();
      found, compared := FindWindow(body, CRLF, from);
      FirstFrom(body, CRLF, at, from);
      ProbesGrow(probes, from, if found.Some? then found.value + 1 else if |body| >= 1 then |body| - 1 else 0);
      probes := probes + compared;
    }

    /** A line, a chunk size or a field of the trailer; false when its end has not come. */
    method TakeLine(body: seq<Byte>) returns (r: Result<bool, Error>)
      requires Valid() && seen == body && data.None?
      modifies this
      ensures Stepped(body, old(Value()), r) && seen == body && old(probes) <= probes
      ensures Increasing(probes) && Below(probes, |body|)
      ensures r.Ok? ==> Valid()
    {
      hide ChunkSize, First;
      var found := SearchLine(body);
      if found.None? {
        if |body| - at > MAX_LINE {
          return Err(LineTooLong);
        }
        searched := |body|;
        return Ok(false);
      }
      var line := body[at..found.value];
      at := found.value + 2;
      searched := at;
      if trailer {
        done := line == [];
        return Ok(true);
      }
      var size := ChunkSize(line);
      if size.None? {
        return Err(BadChunkSize);
      }
      if size.value == 0 {
        trailer := true;
      } else {
        data := size;
      }
      return Ok(true);
    }

    /** Goes on with `body`, which extends what was seen: it ends exactly where the reference reader
        ends from the same state, and compares no window start that any push compared before. */
    method Advance(body: seq<Byte>) returns (r: Result<bool, Error>)
      requires Valid() && seen <= body
      modifies this
      ensures old(probes) <= probes && Increasing(probes) && Below(probes, |body|)
      ensures r.Ok? ==> Valid() && seen == body && r.value == done
      ensures match Settle(body, old(Value()))
              case Ok(p) => r.Ok? && Value() == p
              case Err(e) => r == Err(e)
    {
      hide StepLine, StepData;
      Widen(body);
      seen := body;
      while !done
        invariant Valid() && seen == body && old(probes) <= probes
        invariant Settle(body, Value()) == Settle(body, old(Value()))
        decreases |body| - at
      {
        if data.Some? {
          r := TakeData(body);
        } else {
          r := TakeLine(body);
        }
        if r != Ok(true) {
          return;
        }
      }
      return Ok(true);
    }

    /** What was searched before a push has no line end after it either. */
    lemma Widen(body: seq<Byte>)
      requires Valid() && seen <= body
      ensures forall j: nat | at <= j && j + 1 < searched :: !Matches(body, CRLF, j)
    {
      assert body == seen + body[|seen|..];
      forall j: nat | at <= j && j + 1 < searched
        ensures !Matches(body, CRLF, j)
      {
        MatchesExtends(seen, body[|seen|..], CRLF, j);
      }
    }
  }
}
