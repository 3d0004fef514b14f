/** Octets, machine words and the window search that the incremental parsers share. */
module Bytes {
  type Byte = x: int | 0 <= x < 256

  /** The largest `usize` of the 64-bit targets the program is built for. */
  const USIZE_MAX := 0xFFFF_FFFF_FFFF_FFFF

  datatype Option<+T> = None | Some(value: T)

  datatype Result<+T, +E> = Ok(value: T) | Err(error: E)

  function Least(a: nat, b: nat): nat { if a <= b then a else b }

  /** Whether the window of `s` that starts at `i` is `pat`. */
  predicate Matches(s: seq<Byte>, pat: seq<Byte>, i: nat) {
    i + |pat| <= |s| && s[i..i + |pat|] == pat
  }

  /** The first window start at or after `from` that matches `pat`. */
  function First(s: seq<Byte>, pat: seq<Byte>, from: nat): (r: Option<nat>)
    ensures r.Some? ==> from <= r.value && Matches(s, pat, r.value)
    ensures forall j: nat | from <= j && (r.Some? ==> j < r.value) :: !Matches(s, pat, j)
    decreases |s| - from
  {
    if from + |pat| > |s| then None
    else if Matches(s, pat, from) then Some(from)
    else First(s, pat, from + 1)
  }

  /** A search may start later when nothing before that start matches. */
  lemma FirstFrom(s: seq<Byte>, pat: seq<Byte>, from: nat, later: nat)
    requires from <= later
    requires forall j: nat | from <= j < later :: !Matches(s, pat, j)
    ensures First(s, pat, from) == First(s, pat, later)
    decreases later - from
  {
    if from < later {
      FirstFrom(s, pat, from + 1, later);
      assert !Matches(s, pat, from);
    }
  }

  /** A window inside `s` matches in every extension of `s` exactly when it matches in `s`. */
  lemma MatchesExtends(s: seq<Byte>, more: seq<Byte>, pat: seq<Byte>, i: nat)
    requires i + |pat| <= |s|
    ensures Matches(s + more, pat, i) == Matches(s, pat, i)
  {
    assert (s + more)[i..i + |pat|] == s[i..i + |pat|];
  }

  /** A first match found in `s` is the first match in every extension of `s`. */
  lemma FirstExtends(s: seq<Byte>, more: seq<Byte>, pat: seq<Byte>, from: nat)
    requires First(s, pat, from).Some?
    ensures First(s + more, pat, from) == First(s, pat, from)
  {
    var at := First(s, pat, from).value;
    forall j: nat | from <= j <= at
      ensures Matches(s + more, pat, j) == Matches(s, pat, j)
    {
      MatchesExtends(s, more, pat, j);
    }
    FirstFrom(s + more, pat, from, at);
  }

  /** A concatenation stands at `i` exactly when its halves stand one after the other. */
  lemma MatchesConcat(s: seq<Byte>, a: seq<Byte>, b: seq<Byte>, i: nat)
    ensures Matches(s, a + b, i) <==> Matches(s, a, i) && Matches(s, b, i + |a|)
  {
    if i + |a| + |b| <= |s| {
      assert s[i..i + |a| + |b|] == s[i..i + |a|] + s[i + |a|..i + |a| + |b|];
      var w := s[i..i + |a| + |b|];
      assert w[..|a|] == s[i..i + |a|] && w[|a|..] == s[i + |a|..i + |a| + |b|];
      assert (a + b)[..|a|] == a && (a + b)[|a|..] == b;
    }
  }

  lemma MatchesSelf(s: seq<Byte>, more: seq<Byte>)
    ensures Matches(s + more, s, 0) && Matches(s, s, 0)
  {
  }

  function Flatten<T>(parts: seq<seq<T>>): seq<T> {
    if parts == [] then [] else parts[0] + Flatten(parts[1..])
  }

  lemma {:induction false} FlattenAppend<T>(a: seq<seq<T>>, b: seq<seq<T>>)
    ensures Flatten(a + b) == Flatten(a) + Flatten(b)
  {
    if a == [] {
      assert a + b == b;
    } else {
      FlattenAppend(a[1..], b);
      assert (a + b)[0] == a[0] && (a + b)[1..] == a[1..] + b;
      assert Flatten(a + b) == a[0] + Flatten(a[1..] + b);
      assert a[0] + (Flatten(a[1..]) + Flatten(b)) == a[0] + Flatten(a[1..]) + Flatten(b);
    }
  }

  /** The number that `digits`, most significant octet first, spell. */
  function BigEndian(digits: seq<Byte>): nat {
    if digits == [] then 0 else BigEndian(digits[..|digits| - 1]) * 256 + digits[|digits| - 1]
  }
}
