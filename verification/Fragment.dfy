/** The ClientHello in pieces: how a stream cuts what is first written to it. */
module Fragment {
  import opened Bytes
  import opened ClientHello

  datatype Config = Config(enabled: bool, sizeMin: nat, sizeMax: nat, sniSplit: bool)

  function Most(a: nat, b: nat): nat { if a >= b then a else b }

  /** The size of a piece, for the random number `r`. */
  function PickChunkLen(cfg: Config, remaining: nat, r: nat): nat {
    var hi := Least(Most(cfg.sizeMax, 1), remaining);
    var lo := Least(Most(cfg.sizeMin, 1), hi);
    if lo >= hi then hi else lo + r % (hi - lo + 1)
  }

  /** How much of `buf` goes into the next piece: the first is cut in the middle of the server's name when
      there is one to cut. */
  function ChunkLen(cfg: Config, first: bool, buf: seq<Byte>, r: nat): nat {
    var range := if first && cfg.sniSplit then SniHostRange(buf) else None;
    if range.Some? && range.value.0 <= range.value.1 && 0 < SplitAt(range.value) < |buf| then SplitAt(range.value)
    else PickChunkLen(cfg, |buf|, r)
  }

  lemma ChunkInRange(cfg: Config, first: bool, buf: seq<Byte>, r: nat)
    requires buf != []
    ensures 1 <= ChunkLen(cfg, first, buf, r) <= |buf|
  {
    hide SniHostRange;
  }

  /** Whether the stream still cuts when it writes its `k`-th piece: cutting is on, and nothing was read before. */
  ghost predicate Cuts(cfg: Config, hears: nat -> bool, k: nat) {
    cfg.enabled && forall i | 0 <= i <= k :: !hears(i)
  }

  /** The most the `k`-th piece may be, with `left` still to write. */
  ghost function Limit(cfg: Config, left: seq<Byte>, randoms: nat -> nat, hears: nat -> bool, k: nat): nat {
    if Cuts(cfg, hears, k) then ChunkLen(cfg, k == 0, left, randoms(k)) else |left|
  }

  /** Whether each piece is as long as its limit and the connection allow. */
  ghost predicate PiecesOf(
    cfg: Config, buf: seq<Byte>, randoms: nat -> nat, takes: nat -> nat, hears: nat -> bool, pieces: seq<seq<Byte>>)
  {
    forall k | 0 <= k < |pieces| ::
      var done := |Flatten(pieces[..k])|;
      done <= |buf| && |pieces[k]| == Least(Most(takes(k), 1), Limit(cfg, buf[done..], randoms, hears, k))
  }

  /** Whether `n` of `left` octets keep to the sizes that are set: no more than the largest, or one where that is
      none; and no fewer than the smallest, where the largest, what is left and the connection allow that. */
  predicate Sized(cfg: Config, left: int, takes: nat, n: nat) {
    && 1 <= n <= left && n <= (if cfg.sizeMax == 0 then 1 else cfg.sizeMax)
    && (cfg.sizeMin <= cfg.sizeMax && cfg.sizeMin <= left && cfg.sizeMin <= takes ==> n >= cfg.sizeMin)
  }

  lemma PieceSized(cfg: Config, buf: seq<Byte>, randoms: nat -> nat, takes: nat -> nat, hears: nat -> bool,
                   pieces: seq<seq<Byte>>, k: nat)
    requires PiecesOf(cfg, buf, randoms, takes, hears, pieces) && k < |pieces| && pieces[k] != []
    requires (k > 0 || !cfg.sniSplit) && Cuts(cfg, hears, k)
    ensures Sized(cfg, |buf| - |Flatten(pieces[..k])|, takes(k), |pieces[k]|)
  {
    hide Flatten, SniHostRange, PickChunkLen;
    var left := buf[|Flatten(pieces[..k])|..];
    ChunkAsSet(cfg, k == 0, left, randoms(k));
    if left == [] {
      NothingLeft(cfg, randoms(k));
    } else {
      PieceSize(cfg, |left|, randoms(k));
    }
  }

  lemma ChunkAsSet(cfg: Config, first: bool, buf: seq<Byte>, r: nat)
    requires !first || !cfg.sniSplit
    ensures ChunkLen(cfg, first, buf, r) == PickChunkLen(cfg, |buf|, r)
  {
  }

  lemma NothingLeft(cfg: Config, r: nat)
    ensures PickChunkLen(cfg, 0, r) == 0
  {
  }

  /** A writer that goes on until all is written, over a connection that takes some of each piece: the
      pieces are `buf`, in order, none of them empty, each as long as its limit and the connection allow; so
      nothing is cut once something was read from the stream, `hears(k)` before the `k`-th piece. Each that is
      cut and that no name decides keeps to the sizes that are set. The first is cut strictly inside the
      server's name when the hello names one first, name splitting is on, and the connection takes that piece
      whole. */
  method WriteAll(cfg: Config, buf: seq<Byte>, randoms: nat -> nat, takes: nat -> nat, hears: nat -> bool)
    returns (pieces: seq<seq<Byte>>)
    ensures Flatten(pieces) == buf && forall p | p in pieces :: p != []
    ensures PiecesOf(cfg, buf, randoms, takes, hears, pieces)
    ensures forall k | 0 <= k < |pieces| && (k > 0 || !cfg.sniSplit) && Cuts(cfg, hears, k) ::
              Sized(cfg, |buf| - |Flatten(pieces[..k])|, takes(k), |pieces[k]|)
    ensures cfg.enabled && !hears(0) && cfg.sniSplit && TlsSni(buf).Some? && HostNameFirst(buf) && takes(0) >= |buf| ==>
              && pieces != [] && SniHostRange(buf).Some?
              && SniHostRange(buf).value.0 < |pieces[0]| < SniHostRange(buf).value.1
  {
    hide SniHostRange, ChunkLen, TlsSni, HostNameFirst, Flatten;
    pieces := [];
    var left, fragmenting := buf, cfg.enabled;
    FlattenNone();
    while left != []
      invariant Flatten(pieces) + left == buf && forall p | p in pieces :: p != []
      invariant fragmenting == (cfg.enabled && forall i | 0 <= i < |pieces| :: !hears(i))
      invariant PiecesOf(cfg, buf, randoms, takes, hears, pieces)
      decreases |left|
    {
      var k := |pieces|;
      if hears(k) {
        fragmenting := false;
      }
      assert fragmenting == Cuts(cfg, hears, k);
      var chunk := if fragmenting then ChunkLen(cfg, k == 0, left, randoms(k)) else |left|;
      ChunkInRange(cfg, k == 0, left, randoms(k));
      var n := Least(Most(takes(k), 1), chunk);
      OnePiece(pieces, left, n);
      PieceOn(cfg, buf, randoms, takes, hears, pieces, left, n);
      pieces := pieces + [left[..n]];
      left := left[n..];
    }
    assert Flatten(pieces) + [] == Flatten(pieces);
    forall k | 0 <= k < |pieces| && (k > 0 || !cfg.sniSplit) && Cuts(cfg, hears, k)
      ensures Sized(cfg, |buf| - |Flatten(pieces[..k])|, takes(k), |pieces[k]|)
    {
      assert pieces[k] in pieces;
      PieceSized(cfg, buf, randoms, takes, hears, pieces, k);
    }
    if cfg.enabled && !hears(0) && cfg.sniSplit && TlsSni(buf).Some? && HostNameFirst(buf) {
      FirstCut(cfg, buf, randoms(0));
      assert pieces == [] ==> Flatten(pieces) == [];
      assert pieces[..0] == [] && buf[0..] == buf;
      assert |pieces[0]| == Least(Most(takes(0), 1), Limit(cfg, buf[|Flatten(pieces[..0])|..], randoms, hears, 0));
    }
  }

  lemma PieceOn(cfg: Config, buf: seq<Byte>, randoms: nat -> nat, takes: nat -> nat, hears: nat -> bool,
                pieces: seq<seq<Byte>>, left: seq<Byte>, n: nat)
    requires PiecesOf(cfg, buf, randoms, takes, hears, pieces) && Flatten(pieces) + left == buf && n <= |left|
    requires n == Least(Most(takes(|pieces|), 1), Limit(cfg, left, randoms, hears, |pieces|))
    ensures PiecesOf(cfg, buf, randoms, takes, hears, pieces + [left[..n]])
  {
    hide Flatten, Limit;
    var longer := pieces + [left[..n]];
    forall k | 0 <= k < |longer|
      ensures var done := |Flatten(longer[..k])|;
              done <= |buf| && |longer[k]| == Least(Most(takes(k), 1), Limit(cfg, buf[done..], randoms, hears, k))
    {
      if k < |pieces| {
        assert longer[..k] == pieces[..k] && longer[k] == pieces[k];
      } else {
        assert longer[..k] == pieces && buf[|Flatten(pieces)|..] == left;
      }
    }
  }

  lemma FlattenNone()
    ensures Flatten<Byte>([]) == []
  {
  }

  lemma OnePiece(pieces: seq<seq<Byte>>, left: seq<Byte>, n: nat)
    requires n <= |left|
    ensures Flatten(pieces + [left[..n]]) + left[n..] == Flatten(pieces) + left
  {
    FlattenAppend(pieces, [left[..n]]);
    assert Flatten([left[..n]]) == left[..n] + Flatten<Byte>([]) == left[..n];
    assert left[..n] + left[n..] == left;
    assert Flatten(pieces) + left[..n] + left[n..] == Flatten(pieces) + (left[..n] + left[n..]);
  }

  lemma FirstCut(cfg: Config, buf: seq<Byte>, r: nat)
    requires cfg.sniSplit && TlsSni(buf).Some? && HostNameFirst(buf)
    ensures buf != [] && SniHostRange(buf).Some?
    ensures SniHostRange(buf).value.0 < ChunkLen(cfg, true, buf, r) < SniHostRange(buf).value.1
    ensures ChunkLen(cfg, true, buf, r) <= |buf|
  {
    hide SniHostRange, TlsSni, HostNameFirst, PickChunkLen;
    CutInsideName(buf);
  }

  /** A piece that no name decides is as long as the settings allow: no more than the larger of the largest size and
      one, nor than is left, and no less than the smallest size and one where both allow it. */
  lemma PieceSize(cfg: Config, remaining: nat, r: nat)
    requires remaining > 0
    ensures var n := PickChunkLen(cfg, remaining, r);
            && 1 <= n <= remaining && (cfg.sizeMax >= 1 ==> n <= cfg.sizeMax) && (cfg.sizeMax == 0 ==> n == 1)
            && (cfg.sizeMin <= cfg.sizeMax && cfg.sizeMin <= remaining ==> n >= cfg.sizeMin)
  {
  }

  /** And every length the settings allow is one that chance can give. */
  lemma EverySize(cfg: Config, remaining: nat, n: nat)
    requires 1 <= n <= remaining && cfg.sizeMin <= n <= cfg.sizeMax
    ensures PickChunkLen(cfg, remaining, n - Least(Most(cfg.sizeMin, 1), remaining)) == n
  {
    var hi := Least(Most(cfg.sizeMax, 1), remaining);
    var lo := Least(Most(cfg.sizeMin, 1), hi);
    assert lo <= n <= hi && lo == Least(Most(cfg.sizeMin, 1), remaining);
    if lo < hi {
      assert (n - lo) % (hi - lo + 1) == n - lo;
    }
  }
}
