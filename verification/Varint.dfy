/** Variable-length integers (section 16 of RFC 9000). */
module Varint {
  import opened Bytes

  const MAX_VARINT := 0x4000_0000_0000_0000

  function Pow256(n: nat): (p: nat)
    ensures p > 0
  {
    if n == 0 then 1 else 256 * Pow256(n - 1)
  }

  /** The last `n` octets of `v`, most significant first. */
  function Octets(v: nat, n: nat): (s: seq<Byte>)
    ensures |s| == n
  {
    if n == 0 then [] else Octets(v / 256, n - 1) + [v % 256]
  }

  lemma {:induction false} BigEndianOctets(v: nat, n: nat)
    requires v < Pow256(n)
    ensures BigEndian(Octets(v, n)) == v
  {
    if n > 0 {
      BigEndianOctets(v / 256, n - 1);
      var s := Octets(v, n);
      assert s[..n - 1] == Octets(v / 256, n - 1);
    }
  }

  /** The first octet of `v` is what `v` has of the highest power of 256. */
  lemma {:induction false} FirstOctet(v: nat, n: nat)
    requires n > 0 && v < Pow256(n)
    ensures var f := Octets(v, n)[0]; f * Pow256(n - 1) <= v < (f + 1) * Pow256(n - 1)
  {
    if n == 1 {
      assert Pow256(1) == 256 * Pow256(0) == 256;
      assert Octets(v, 1)[0] == v % 256 == v;
    } else {
      var q, p := v / 256, Pow256(n - 2);
      FirstOctet(q, n - 1);
      var f := Octets(q, n - 1)[0];
      assert Octets(v, n)[0] == f;
      Scale(v, q, f, p);
    }
  }

  lemma Scale(v: nat, q: nat, f: nat, p: nat)
    requires q == v / 256 && f * p <= q < (f + 1) * p
    ensures f * (256 * p) <= v < (f + 1) * (256 * p)
  {
    assert f * (256 * p) == 256 * (f * p);
    assert (f + 1) * (256 * p) == 256 * ((f + 1) * p);
  }

  function VarintLen(v: nat): nat {
    if v < 64 then 1 else if v < 16384 then 2 else if v < 1_073_741_824 then 4 else 8
  }

  /** The two leading bits of an encoding of `n` octets, in place. */
  function LengthBits(n: nat): nat {
    if n == 2 then 0x4000 else if n == 4 then 0x8000_0000 else if n == 8 then 0xC000_0000_0000_0000 else 0
  }

  function PutVarint(v: nat): (s: seq<Byte>)
    requires v < MAX_VARINT
    ensures |s| == VarintLen(v)
  {
    Octets(v + LengthBits(VarintLen(v)), VarintLen(v))
  }

  function LengthOf(first: Byte): nat {
    if first < 64 then 1 else if first < 128 then 2 else if first < 192 then 4 else 8
  }

  /** The number that starts `s` and how many octets it takes; nothing when it has not all come. */
  function GetVarint(s: seq<Byte>): (r: Option<(nat, nat)>)
    ensures r.Some? ==> 0 < r.value.1 <= |s|
  {
    if s == [] || |s| < LengthOf(s[0]) then None
    else
      var n := LengthOf(s[0]);
      var raw := BigEndian(s[..n]);
      Some((if raw >= LengthBits(n) then raw - LengthBits(n) else 0, n))
  }

  lemma Powers()
    ensures Pow256(0) == 1 && Pow256(1) == 256 && Pow256(2) == 0x1_0000 && Pow256(3) == 0x100_0000
    ensures Pow256(4) == 0x1_0000_0000 && Pow256(7) == 0x100_0000_0000_0000
    ensures Pow256(8) == 0x1_0000_0000_0000_0000
  {
    assert Pow256(3) == 256 * Pow256(2);
    assert Pow256(4) == 256 * Pow256(3);
    assert Pow256(5) == 256 * Pow256(4);
    assert Pow256(6) == 256 * Pow256(5);
    assert Pow256(7) == 256 * Pow256(6);
    assert Pow256(8) == 256 * Pow256(7);
  }

  lemma FirstOfVarint(v: nat)
    requires v < MAX_VARINT
    ensures LengthOf(PutVarint(v)[0]) == VarintLen(v)
  {
    hide Octets, Pow256;
    Powers();
    var n := VarintLen(v);
    FirstOctet(v + LengthBits(n), n);
  }

  /** What is written reads back, whatever follows it. */
  lemma RoundTrip(v: nat, rest: seq<Byte>)
    requires v < MAX_VARINT
    ensures GetVarint(PutVarint(v) + rest) == Some((v, VarintLen(v)))
  {
    hide Octets, Pow256, BigEndian;
    Powers();
    var n, s := VarintLen(v), PutVarint(v);
    FirstOfVarint(v);
    assert (s + rest)[..n] == s;
    BigEndianOctets(v + LengthBits(n), n);
  }

  /** A number that has come stays what it is, whatever follows. */
  lemma GetExtends(s: seq<Byte>, more: seq<Byte>)
    requires GetVarint(s).Some?
    ensures GetVarint(s + more) == GetVarint(s)
  {
    var n := LengthOf(s[0]);
    assert (s + more)[..n] == s[..n];
  }

  /** The examples of section A.1 of RFC 9000. */
  lemma Examples()
    ensures GetVarint([0xC2, 0x19, 0x7C, 0x5E, 0xFF, 0x14, 0xE8, 0x8C]) == Some((151_288_809_941_952_652, 8))
    ensures GetVarint([0x9D, 0x7F, 0x3E, 0x7D]) == Some((494_878_333, 4))
    ensures GetVarint([0x7B, 0xBD]) == Some((15_293, 2)) && GetVarint([0x25]) == Some((37, 1))
    ensures GetVarint([0x40, 0x25]) == Some((37, 2))
  {
    hide BigEndian;
    var a: seq<Byte> := [0xC2, 0x19, 0x7C, 0x5E, 0xFF, 0x14, 0xE8, 0x8C];
    var b: seq<Byte> := [0x9D, 0x7F, 0x3E, 0x7D];
    assert a[..8] == a && b[..4] == b;
    Eight([0xC2, 0x19, 0x7C, 0x5E], 0xFF, 0x14, 0xE8, 0x8C);
    Four(0xC2, 0x19, 0x7C, 0x5E);
    assert a == [0xC2, 0x19, 0x7C, 0x5E] + [0xFF, 0x14, 0xE8, 0x8C];
    Four(0x9D, 0x7F, 0x3E, 0x7D);
    Two(0x7B, 0xBD);
    Two(0x40, 0x25);
    assert [0x7B, 0xBD][..2] == [0x7B, 0xBD] && [0x40, 0x25][..2] == [0x40, 0x25] && [0x25][..1] == [0x25];
    One(0x25);
  }

  lemma One(a: Byte)
    ensures BigEndian([a]) == a
  {
    assert [a][..0] == [];
  }

  lemma Eight(high: seq<Byte>, a: Byte, b: Byte, c: Byte, d: Byte)
    ensures BigEndian(high + [a, b, c, d]) ==
            (((BigEndian(high) * 256 + a) * 256 + b) * 256 + c) * 256 + d
  {
    var s := high + [a, b, c, d];
    var n := |high|;
    assert s[..n + 3] == high + [a, b, c] && s[..n + 3][..n + 2] == high + [a, b];
    assert (high + [a, b])[..n + 1] == high + [a] && (high + [a])[..n] == high;
    assert BigEndian(high + [a]) == BigEndian(high) * 256 + a;
    assert BigEndian(high + [a, b]) == BigEndian(high + [a]) * 256 + b;
    assert BigEndian(high + [a, b, c]) == BigEndian(high + [a, b]) * 256 + c;
  }

  lemma Two(a: Byte, b: Byte)
    ensures BigEndian([a, b]) == (a as nat) * 256 + b
  {
    assert [a, b][..1] == [a] && [a][..0] == [];
    assert BigEndian([a]) == BigEndian([a][..0]) * 256 + a;
  }

  lemma Four(a: Byte, b: Byte, c: Byte, d: Byte)
    ensures BigEndian([a, b, c, d]) == (a as nat) * 0x100_0000 + (b as nat) * 0x1_0000 + (c as nat) * 256 + d
  {
    Two(a, b);
    assert [a, b, c][..2] == [a, b] && [a, b, c, d][..3] == [a, b, c];
    assert BigEndian([a, b, c]) == BigEndian([a, b]) * 256 + c;
  }
}
