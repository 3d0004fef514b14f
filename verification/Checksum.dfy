/** The internet checksum of an IPv4 header (RFC 1071), and the probe packet that carries one. */
module Checksum {
  import opened Bytes
  import opened Tunnel
  import Dns
  import opened Text

  /** The 16-bit words of `header` summed, an odd last octet as a high one. */
  function WordSum(header: seq<Byte>): nat {
    if header == [] then 0
    else if |header| == 1 then (header[0] as nat) * 256
    else (header[0] as nat) * 256 + header[1] + WordSum(header[2..])
  }

  /** Carries folded back in until none is left. */
  function Fold(sum: nat): (r: nat)
    ensures r < 0x1_0000 && r % 0xFFFF == sum % 0xFFFF && (r == 0 <==> sum == 0)
    decreases sum
  {
    if sum < 0x1_0000 then sum
    else
      FoldStep(sum);
      Fold(sum % 0x1_0000 + sum / 0x1_0000)
  }

  /** Folding a carry back in makes a sum smaller, keeps it from zero and keeps it modulo 65535. */
  lemma FoldStep(sum: nat)
    requires sum >= 0x1_0000
    ensures var next := sum % 0x1_0000 + sum / 0x1_0000; 0 < next < sum && next % 0xFFFF == sum % 0xFFFF
  {
    var hi, lo := sum / 0x1_0000, sum % 0x1_0000;
    assert sum == lo + hi + hi * 0xFFFF;
    ModPlus(lo + hi, hi);
  }

  lemma {:induction false} ModPlus(x: nat, k: nat)
    ensures (x + k * 0xFFFF) % 0xFFFF == x % 0xFFFF
    decreases k
  {
    if k > 0 {
      ModPlus(x, k - 1);
      assert x + k * 0xFFFF == x + (k - 1) * 0xFFFF + 0xFFFF;
    }
  }

  function ChecksumOf(header: seq<Byte>): (c: nat)
    ensures c < 0x1_0000
  {
    0xFFFF - Fold(WordSum(header))
  }

  /** The sum in 32 bits. */
  method SumWords(header: seq<Byte>) returns (sum: nat)
    ensures sum < 0x1_0000_0000
    ensures WordSum(header) < 0x1_0000_0000 ==> sum == WordSum(header)
  {
    var i: nat := 0;
    sum := 0;
    assert header[0..] == header;
    while i + 1 < |header|
      invariant i <= |header| && sum < 0x1_0000_0000
      invariant WordSum(header) < 0x1_0000_0000 ==> sum + WordSum(header[i..]) == WordSum(header)
    {
      assert header[i..][2..] == header[i + 2..];
      var word: nat := (header[i] as nat) * 256 + header[i + 1];
      assert WordSum(header[i..]) == word + WordSum(header[i + 2..]);
      sum := (sum + word) % 0x1_0000_0000;
      i := i + 2;
    }
    if i < |header| {
      sum := (sum + (header[i] as nat) * 256) % 0x1_0000_0000;
    }
  }

  /** The checksum as the program computes it, its sum in 32 bits: right for every header whose sum fits. */
  method Ipv4HeaderChecksum(header: seq<Byte>) returns (c: nat)
    ensures c < 0x1_0000
    ensures WordSum(header) < 0x1_0000_0000 ==> c == ChecksumOf(header)
  {
    var sum := SumWords(header);
    ghost var total := sum;
    while sum / 0x1_0000 != 0
      invariant Fold(sum) == Fold(total)
      decreases sum
    {
      FoldStep(sum);
      sum := sum % 0x1_0000 + sum / 0x1_0000;
    }
    c := 0xFFFF - sum;
  }

  lemma {:induction false} WordSumAppend(a: seq<Byte>, b: seq<Byte>)
    requires |a| % 2 == 0
    ensures WordSum(a + b) == WordSum(a) + WordSum(b)
    decreases |a|
  {
    if a == [] {
      assert a + b == b;
    } else {
      assert (a + b)[2..] == a[2..] + b;
      WordSumAppend(a[2..], b);
    }
  }

  /** `header` with the word at `at` set to `w`. */
  function SetWord(header: seq<Byte>, at: nat, w: nat): (r: seq<Byte>)
    requires at + 2 <= |header| && w < 0x1_0000
    ensures |r| == |header|
  {
    header[..at] + ([w / 256, w % 256] + header[at + 2..])
  }

  function WordAt(header: seq<Byte>, at: nat): nat
    requires at + 2 <= |header|
  {
    (header[at] as nat) * 256 + header[at + 1]
  }

  lemma SetWordSum(header: seq<Byte>, at: nat, w: nat)
    requires at % 2 == 0 && at + 2 <= |header| && w < 0x1_0000
    ensures WordSum(SetWord(header, at, w)) + WordAt(header, at) == WordSum(header) + w
  {
    hide WordSum;
    SameAround(header, at);
    SumAround(header, at, header[at], header[at + 1]);
    var hi, lo := w / 256, w % 256;
    SumAround(header, at, hi, lo);
  }

  lemma SameAround(header: seq<Byte>, at: nat)
    requires at + 2 <= |header|
    ensures header[..at] + ([header[at], header[at + 1]] + header[at + 2..]) == header
  {
    assert header[..at] + header[at..] == header;
    assert header[at..] == [header[at], header[at + 1]] + header[at + 2..];
  }

  lemma SumAround(header: seq<Byte>, at: nat, hi: Byte, lo: Byte)
    requires at % 2 == 0 && at + 2 <= |header|
    ensures WordSum(header[..at] + ([hi, lo] + header[at + 2..])) ==
            WordSum(header[..at]) + ((hi as nat) * 256 + lo) + WordSum(header[at + 2..])
  {
    hide WordSum;
    WordSumAppend(header[..at], [hi, lo] + header[at + 2..]);
    WordSumAppend([hi, lo], header[at + 2..]);
    OneWord(hi, lo);
  }

  lemma OneWord(hi: Byte, lo: Byte)
    ensures WordSum([hi, lo]) == (hi as nat) * 256 + lo
  {
    assert [hi, lo][2..] == [];
  }

  /** A header checks out exactly when its words sum to a multiple of 65535 other than zero. */
  lemma ZeroIff(header: seq<Byte>)
    ensures ChecksumOf(header) == 0 <==> WordSum(header) > 0 && WordSum(header) % 0xFFFF == 0
  {
    var f := Fold(WordSum(header));
    assert f % 0xFFFF == 0 <==> f == 0 || f == 0xFFFF;
  }

  /** Written into its zeroed word, the checksum makes the header check out. */
  lemma ChecksumVerifies(header: seq<Byte>, at: nat)
    requires at % 2 == 0 && at + 2 <= |header| && WordAt(header, at) == 0
    ensures ChecksumOf(SetWord(header, at, ChecksumOf(header))) == 0
  {
    var s, c := WordSum(header), ChecksumOf(header);
    SetWordSum(header, at, c);
    var done := SetWord(header, at, c);
    assert WordSum(done) == s + (0xFFFF - Fold(s));
    CancelFold(s);
    ZeroIff(done);
  }

  lemma CancelFold(s: nat)
    ensures (s + (0xFFFF - Fold(s))) % 0xFFFF == 0 && s + (0xFFFF - Fold(s)) > 0
  {
    var f := Fold(s);
    var q, g := s / 0xFFFF, s % 0xFFFF;
    var p := f / 0xFFFF;
    assert s == q * 0xFFFF + g && f == p * 0xFFFF + g;
    assert s + (0xFFFF - f) == (q + 1 - p) * 0xFFFF;
    assert p <= 1;
    ModPlus(0, q + 1 - p);
  }

  /** A header that checks out and has one word changed still checks out exactly when the two words are
      one and the same modulo 65535 and not all is zero. */
  lemma OneWordChanged(header: seq<Byte>, at: nat, w: nat)
    requires at % 2 == 0 && at + 2 <= |header| && w < 0x1_0000 && ChecksumOf(header) == 0
    ensures ChecksumOf(SetWord(header, at, w)) == 0 <==>
            WordAt(header, at) % 0xFFFF == w % 0xFFFF && WordSum(SetWord(header, at, w)) > 0
  {
    hide Fold, WordSum;
    SetWordSum(header, at, w);
    ZeroIff(header);
    ZeroIff(SetWord(header, at, w));
    SameRest(WordSum(header), WordSum(SetWord(header, at, w)), WordAt(header, at), w);
  }

  lemma SameRest(s: nat, t: nat, v: nat, w: nat)
    requires t + v == s + w && s % 0xFFFF == 0
    ensures t % 0xFFFF == 0 <==> v % 0xFFFF == w % 0xFFFF
  {
    var q := s / 0xFFFF;
    if t % 0xFFFF == 0 {
      ModPlus(v, t / 0xFFFF);
      ModPlus(w, q);
    }
    if v % 0xFFFF == w % 0xFFFF {
      var k := q + w / 0xFFFF - v / 0xFFFF;
      assert t == k * 0xFFFF;
      ModPlus(0, k);
    }
  }

  /** A question for the address of cloudflare.com. */
  function ProbeQuery(id: nat): (q: seq<Byte>)
    requires id < 0x1_0000
    ensures |q| == 32
  {
    [id / 256, id % 256, 0x01, 0x00, 0x00, 0x01, 0, 0, 0, 0, 0, 0,
     10, 99, 108, 111, 117, 100, 102, 108, 97, 114, 101, 3, 99, 111, 109, 0, 0x00, 0x01, 0x00, 0x01]
  }

  /** The probe of the data plane, for the random ids given: a well-headed IPv4 packet whose header checks
      out and whose length fields are its lengths. */
  method BuildDnsProbePacket(src: seq<Byte>, ipId: nat, port: nat, dnsId: nat) returns (pkt: Packet)
    requires |src| == 4 && ipId < 0x1_0000 && 20000 <= port < 60000 && dnsId < 0x1_0000
    ensures |pkt| == 60 && WellHeaded(pkt) && ChecksumOf(pkt[..20]) == 0
    ensures WordAt(pkt, 2) == |pkt| && WordAt(pkt, 24) == |pkt| - 20
    ensures pkt[8] == 64 && pkt[9] == 17 && pkt[12..16] == src && pkt[16..20] == [8, 8, 8, 8]
    ensures WordAt(pkt, 4) == ipId && WordAt(pkt, 20) == port && WordAt(pkt, 22) == 53
    ensures pkt[28..] == ProbeQuery(dnsId)
  {
    var dns := ProbeQuery(dnsId);
    hide WordSum, ChecksumOf, SetWord;
    var head := [0x45, 0x00, 0, 60, ipId / 256, ipId % 256, 0, 0, 64, 17, 0, 0] + src + [8, 8, 8, 8];
    var c := Ipv4HeaderChecksum(head);
    HeaderSum(head);
    ChecksumVerifies(head, 10);
    var done := SetWord(head, 10, c);
    var udp := [port / 256, port % 256, 0, 53, 0, 40, 0, 0];
    pkt := done + (udp + ProbeQuery(dnsId));
    assert pkt[..20] == done && pkt[28..] == ProbeQuery(dnsId);
    SetWordKeeps(head, 10, c);
    assert pkt[20..28] == udp;
    assert forall i | 0 <= i < 8 :: pkt[20 + i] == udp[i];
    assert pkt[12..16] == done[12..16] == head[12..16] == src;
    assert pkt[16..20] == done[16..20] == head[16..20] == [8, 8, 8, 8];
  }

  lemma SetWordKeeps(header: seq<Byte>, at: nat, w: nat)
    requires at + 2 <= |header| && w < 0x1_0000
    ensures var r := SetWord(header, at, w); r[..at] == header[..at] && r[at + 2..] == header[at + 2..]
    ensures forall i | 0 <= i < |header| && i != at && i != at + 1 :: SetWord(header, at, w)[i] == header[i]
  {
  }

  lemma {:induction false} HeaderSum(header: seq<Byte>)
    ensures WordSum(header) <= 0x1_0000 * |header|
    decreases |header|
  {
    if |header| >= 2 {
      HeaderSum(header[2..]);
    }
  }

  /** "cloudflare.com". */
  const CLOUDFLARE: seq<Byte> := [99, 108, 111, 117, 100, 102, 108, 97, 114, 101]
  const COM: seq<Byte> := [99, 111, 109]

  /** The probe asks what the resolver would ask for the address of cloudflare.com. */
  lemma ProbeAsks(id: nat)
    requires id < 0x1_0000
    ensures ProbeQuery(id) == Dns.Query(id, CLOUDFLARE + [DOT] + COM, 1)
  {
    hide Split;
    var name, labels := CLOUDFLARE + [DOT] + COM, [CLOUDFLARE, COM];
    assert labels[1..] == [COM] && JoinBy(labels, DOT) == name;
    SplitOfJoin(labels, DOT);
    assert Dns.LabelsOf(name) == labels;
    assert [COM][1..] == [] && Dns.EncodeLabels([COM]) == [3] + COM + Dns.EncodeLabels([]) == [3] + COM;
    assert Dns.EncodeLabels(labels) == [10] + CLOUDFLARE + Dns.EncodeLabels([COM]);
    assert Dns.EncodeName(name) == [10] + CLOUDFLARE + ([3] + COM) + [0];
  }
}
