/** The ech parameter of the HTTPS records in a reply (section 2.2 of RFC 9460). */
module Ech {
  import opened Bytes
  import opened Dns
  import Varint

  // ---- The parser ----

  /** The position after the name at `pos`. */
  function SkipName(buf: seq<Byte>, pos: nat): (r: Option<nat>)
    ensures r.Some? ==> pos < r.value <= |buf| + 1
    decreases |buf| - pos
  {
    if pos >= |buf| then None
    else if buf[pos] >= 0xC0 then Some(pos + 2)
    else if buf[pos] == 0 then Some(pos + 1)
    else SkipName(buf, pos + 1 + buf[pos])
  }

  /** The range of the value of the first ech parameter. */
  function Params(msg: seq<Byte>, p: nat, end: nat): (r: Option<(nat, nat)>)
    requires end <= |msg|
    ensures r.Some? ==> p + 4 <= r.value.0 <= r.value.1 <= end
    ensures r.Some? ==> Be16(msg, r.value.0 - 4) == SVCPARAM_ECH && Be16(msg, r.value.0 - 2) == r.value.1 - r.value.0
    decreases end - p
  {
    if p + 4 > end then None
    else
      var start := p + 4;
      var stop := start + Be16(msg, p + 2);
      if stop > end then None
      else if Be16(msg, p) == SVCPARAM_ECH then Some((start, stop))
      else Params(msg, stop, end)
  }

  function SvcParams(msg: seq<Byte>, start: nat, len: nat): Option<(nat, nat)>
    requires start + len <= |msg|
  {
    if len < 2 then None
    else
      var p := SkipName(msg, start + 2);
      if p.None? then None else Params(msg, p.value, start + len)
  }

  function Questions(msg: seq<Byte>, pos: nat, count: nat): Option<nat>
    decreases count
  {
    if count == 0 then Some(pos)
    else
      var end := SkipName(msg, pos);
      if end.None? then None else Questions(msg, end.value + 4, count - 1)
  }

  function Answers(msg: seq<Byte>, pos: nat, count: nat): Option<(nat, nat)>
    decreases count
  {
    if count == 0 then None
    else
      var at := SkipName(msg, pos);
      if at.None? || at.value + 10 > |msg| then None
      else
        var start, len := at.value + 10, Be16(msg, at.value + 8);
        if start + len > |msg| then None
        else
          var found := if Be16(msg, at.value) == RR_HTTPS then SvcParams(msg, start, len) else None;
          if found.Some? then found else Answers(msg, start + len, count - 1)
  }

  /** The range of the ech value in a reply. */
  function EchRange(msg: seq<Byte>): Option<(nat, nat)> {
    if |msg| < 12 then None
    else
      var pos := Questions(msg, 12, Be16(msg, 4));
      if pos.None? then None else Answers(msg, pos.value, Be16(msg, 6))
  }

  method SkipNameLoop(buf: seq<Byte>, from: nat) returns (r: Option<nat>)
    ensures r == SkipName(buf, from)
  {
    var pos := from;
    while pos < |buf|
      invariant SkipName(buf, from) == SkipName(buf, pos)
      decreases |buf| - pos
    {
      if buf[pos] >= 0xC0 {
        return Some(pos + 2);
      }
      if buf[pos] == 0 {
        return Some(pos + 1);
      }
      pos := pos + 1 + buf[pos];
    }
    return None;
  }

  method ParseSvcParamsEch(msg: seq<Byte>, start: nat, len: nat) returns (r: Option<(nat, nat)>)
    requires start + len <= |msg|
    ensures r == SvcParams(msg, start, len)
  {
    var end := start + len;
    if start + 2 > end {
      return None;
    }
    var skipped := SkipNameLoop(msg, start + 2);
    if skipped.None? {
      return None;
    }
    var p := skipped.value;
    while p + 4 <= end
      invariant Params(msg, skipped.value, end) == Params(msg, p, end)
      decreases end - p
    {
      var key, size := Be16(msg, p), Be16(msg, p + 2);
      p := p + 4;
      if p + size > end {
        return None;
      }
      if key == SVCPARAM_ECH {
        return Some((p, p + size));
      }
      p := p + size;
    }
    return None;
  }

  /** The value of the ech parameter of the first HTTPS record that has one. */
  method ParseHttpsEch(msg: seq<Byte>) returns (r: Option<seq<Byte>>)
    ensures match EchRange(msg)
            case None => r.None?
            case Some((s, e)) => s <= e <= |msg| && r == Some(msg[s..e])
  {
    hide SkipName, Params, SvcParams;
    if |msg| < 12 {
      return None;
    }
    var qd, an := Be16(msg, 4), Be16(msg, 6);
    var pos: nat := 12;
    var i := 0;
    while i < qd
      invariant i <= qd && pos >= 12 && Questions(msg, 12, qd) == Questions(msg, pos, qd - i)
    {
      var end := SkipNameLoop(msg, pos);
      if end.None? {
        return None;
      }
      pos := end.value + 4;
      i := i + 1;
    }
    ghost var first := pos;
    i := 0;
    while i < an
      invariant i <= an && Answers(msg, first, an) == Answers(msg, pos, an - i)
    {
      var at := SkipNameLoop(msg, pos);
      if at.None? || at.value + 10 > |msg| {
        return None;
      }
      var start, len := at.value + 10, Be16(msg, at.value + 8);
      if start + len > |msg| {
        return None;
      }
      if Be16(msg, at.value) == RR_HTTPS {
        var found := ParseSvcParamsEch(msg, start, len);
        if found.Some? {
          SvcInside(msg, start, len);
          return Some(msg[found.value.0..found.value.1]);
        }
      }
      pos := start + len;
      i := i + 1;
    }
    return None;
  }

  lemma SvcInside(msg: seq<Byte>, start: nat, len: nat)
    requires start + len <= |msg|
    ensures var r := SvcParams(msg, start, len);
            r.Some? ==> start + 7 <= r.value.0 <= r.value.1 <= start + len
                        && Be16(msg, r.value.0 - 4) == SVCPARAM_ECH && Be16(msg, r.value.0 - 2) == r.value.1 - r.value.0
  {
  }

  /** Where the fields behind the name of the `i`-th record from `pos` start, if the walk reaches it and its
      data is whole. */
  function RecordAt(msg: seq<Byte>, pos: nat, i: nat): (r: Option<nat>)
    ensures r.Some? ==> r.value + 10 + DataLen(msg, r.value) <= |msg|
    decreases i
  {
    var at := SkipName(msg, pos);
    if at.None? || at.value + 10 > |msg| || at.value + 10 + DataLen(msg, at.value) > |msg| then None
    else if i == 0 then at
    else RecordAt(msg, at.value + 10 + DataLen(msg, at.value), i - 1)
  }

  /** The length of the data of a record whose fields start at `at`. */
  function DataLen(msg: seq<Byte>, at: nat): nat { if at + 10 <= |msg| then Be16(msg, at + 8) else 0 }

  /** Whether the `i`-th record from `pos` is one of type HTTPS with an ech parameter. */
  predicate HasEch(msg: seq<Byte>, pos: nat, i: nat) {
    var at := RecordAt(msg, pos, i);
    at.Some? && Be16(msg, at.value) == RR_HTTPS && SvcParams(msg, at.value + 10, DataLen(msg, at.value)).Some?
  }

  /** The record the walk stops at: the first of type HTTPS with an ech parameter. */
  lemma {:induction false} StopsAt(msg: seq<Byte>, pos: nat, count: nat) returns (i: nat)
    requires Answers(msg, pos, count).Some?
    ensures i < count && HasEch(msg, pos, i) && forall k | 0 <= k < i :: !HasEch(msg, pos, k)
    ensures var at := RecordAt(msg, pos, i).value;
            Answers(msg, pos, count) == SvcParams(msg, at + 10, DataLen(msg, at))
    decreases count
  {
    hide SvcParams, SkipName, Be16;
    var at := SkipName(msg, pos).value;
    if Be16(msg, at) == RR_HTTPS && SvcParams(msg, at + 10, DataLen(msg, at)).Some? {
      i := 0;
    } else {
      var next := at + 10 + DataLen(msg, at);
      var k := StopsAt(msg, next, count - 1);
      i := k + 1;
      forall x | 0 <= x < i
        ensures !HasEch(msg, pos, x)
      {
        if x > 0 {
          assert RecordAt(msg, pos, x) == RecordAt(msg, next, x - 1) && !HasEch(msg, next, x - 1);
        } else {
          assert RecordAt(msg, pos, 0) == Some(at);
        }
      }
    }
  }

  /** On arbitrary octets, what is returned is the value of an ech parameter, whole inside the data of the
      first answer of type HTTPS that has one. */
  lemma InsideOneRecord(msg: seq<Byte>) returns (pos: nat, i: nat)
    requires EchRange(msg).Some?
    ensures |msg| >= 12 && Questions(msg, 12, Be16(msg, 4)) == Some(pos)
    ensures i < Be16(msg, 6) && HasEch(msg, pos, i) && forall k | 0 <= k < i :: !HasEch(msg, pos, k)
    ensures var at := RecordAt(msg, pos, i).value;
            var (s, e) := EchRange(msg).value;
            && at + 10 <= s - 4 && s <= e <= at + 10 + DataLen(msg, at)
            && Be16(msg, s - 4) == SVCPARAM_ECH && Be16(msg, s - 2) == e - s
  {
    hide SvcParams, SkipName, Answers, Questions;
    pos := Questions(msg, 12, Be16(msg, 4)).value;
    i := StopsAt(msg, pos, Be16(msg, 6));
    var at := RecordAt(msg, pos, i).value;
    SvcInside(msg, at + 10, DataLen(msg, at));
  }

  // ---- Well-formed replies ----

  /** A name on the wire: labels, then the root or a jump back (RFC 1035, section 4.1.4). */
  datatype WireName = WireName(labels: seq<seq<Byte>>, jump: Option<(Byte, Byte)>)

  datatype Param = Param(key: nat, value: seq<Byte>)

  datatype Record =
    | Other(name: WireName, rtype: nat, classTtl: seq<Byte>, rdata: seq<Byte>)
    | Https(name: WireName, classTtl: seq<Byte>, priority: seq<Byte>, target: WireName, params: seq<Param>)

  datatype Question = Question(name: WireName, typeClass: seq<Byte>)

  datatype Reply = Reply(start: seq<Byte>, counts: seq<Byte>, questions: seq<Question>, records: seq<Record>)

  function EncodeTags(labels: seq<seq<Byte>>): seq<Byte> {
    if labels == [] then [] else [|labels[0]| % 256] + labels[0] + EncodeTags(labels[1..])
  }

  function EncodeWire(n: WireName): seq<Byte> {
    EncodeTags(n.labels) + if n.jump.Some? then [n.jump.value.0, n.jump.value.1] else [0]
  }

  ghost predicate ValidName(n: WireName) {
    && (forall tag | tag in n.labels :: 1 <= |tag| <= 63)
    && (n.jump.Some? ==> n.jump.value.0 >= 0xC0)
  }

  function EncodeParams(params: seq<Param>): seq<Byte> {
    if params == [] then []
    else
      Varint.Octets(params[0].key, 2) + Varint.Octets(|params[0].value|, 2) + params[0].value
      + EncodeParams(params[1..])
  }

  ghost predicate ValidParams(params: seq<Param>) {
    forall p | p in params :: p.key < 0x1_0000 && |p.value| < 0x1_0000
  }

  function Rdata(r: Record): seq<Byte> {
    if r.Other? then r.rdata else r.priority + EncodeWire(r.target) + EncodeParams(r.params)
  }

  function TypeOf(r: Record): nat { if r.Other? then r.rtype else 65 }

  function EncodeRecord(r: Record): seq<Byte> {
    EncodeWire(r.name) + (Varint.Octets(TypeOf(r), 2) + r.classTtl + Varint.Octets(|Rdata(r)|, 2) + Rdata(r))
  }

  function EncodeRecords(rs: seq<Record>): seq<Byte> {
    if rs == [] then [] else EncodeRecord(rs[0]) + EncodeRecords(rs[1..])
  }

  ghost predicate ValidRecord(r: Record) {
    && ValidName(r.name) && |r.classTtl| == 6 && |Rdata(r)| < 0x1_0000
    && (r.Other? ==> r.rtype < 0x1_0000 && r.rtype != 65)
    && (r.Https? ==> |r.priority| == 2 && ValidName(r.target) && ValidParams(r.params))
  }

  function EncodeQuestions(qs: seq<Question>): seq<Byte> {
    if qs == [] then [] else EncodeWire(qs[0].name) + qs[0].typeClass + EncodeQuestions(qs[1..])
  }

  function EncodeReply(r: Reply): seq<Byte> {
    r.start + Varint.Octets(|r.questions|, 2) + Varint.Octets(|r.records|, 2) + r.counts
    + (EncodeQuestions(r.questions) + EncodeRecords(r.records))
  }

  ghost predicate ValidReply(r: Reply) {
    && |r.start| == 4 && |r.counts| == 4 && |r.questions| < 0x1_0000 && |r.records| < 0x1_0000
    && (forall q | q in r.questions :: ValidName(q.name) && |q.typeClass| == 4)
    && (forall x | x in r.records :: ValidRecord(x))
  }

  /** The ech value of a list of parameters, and of the first record that has one. */
  function EchOf(params: seq<Param>): Option<seq<Byte>> {
    if params == [] then None
    else if params[0].key == 5 then Some(params[0].value)
    else EchOf(params[1..])
  }

  function FirstEch(rs: seq<Record>): Option<seq<Byte>> {
    if rs == [] then None
    else
      var own := if rs[0].Https? then EchOf(rs[0].params) else None;
      if own.Some? then own else FirstEch(rs[1..])
  }

  /** Whether `range` is where `value` stands in `msg`, or both are nothing. */
  ghost predicate Gives(msg: seq<Byte>, range: Option<(nat, nat)>, value: Option<seq<Byte>>) {
    match range
    case None => value.None?
    case Some((s, e)) => s <= e <= |msg| && value == Some(msg[s..e])
  }

  lemma Fits(s: seq<Byte>, pat: seq<Byte>, at: nat)
    requires Matches(s, pat, at)
    ensures at + |pat| <= |s|
  {
  }

  lemma Stood(s: seq<Byte>, at: nat, part: seq<Byte>)
    requires Matches(s, part, at)
    ensures at + |part| <= |s| && s[at..at + |part|] == part
  {
  }

  lemma ReadBe16(s: seq<Byte>, at: nat, v: nat)
    requires Matches(s, Varint.Octets(v, 2), at) && v < 0x1_0000
    ensures at + 2 <= |s| && Be16(s, at) == v
  {
    var o := Varint.Octets(v, 2);
    assert Varint.Octets(v / 256, 1) == Varint.Octets(v / 256 / 256, 0) + [v / 256 % 256];
    assert o == [v / 256 % 256, v % 256];
    assert s[at..at + 2][0] == s[at] && s[at..at + 2][1] == s[at + 1];
  }

  lemma FirstOctet(s: seq<Byte>, at: nat, b: Byte, more: seq<Byte>)
    requires Matches(s, [b] + more, at)
    ensures at < |s| && s[at] == b
  {
    assert s[at..at + 1 + |more|][0] == s[at];
  }

  lemma {:induction false} SkipTags(msg: seq<Byte>, pos: nat, labels: seq<seq<Byte>>)
    requires (forall tag | tag in labels :: 1 <= |tag| <= 63) && Matches(msg, EncodeTags(labels), pos)
    ensures SkipName(msg, pos) == SkipName(msg, pos + |EncodeTags(labels)|)
    decreases |labels|
  {
    hide Matches;
    if labels != [] {
      var tag, rest := labels[0], EncodeTags(labels[1..]);
      assert tag in labels && forall l | l in labels[1..] :: l in labels;
      assert EncodeTags(labels) == [|tag| % 256] + tag + rest;
      MatchesConcat(msg, [|tag| % 256] + tag, rest, pos);
      MatchesConcat(msg, [|tag| % 256], tag, pos);
      assert [|tag| % 256] + [] == [|tag| % 256];
      FirstOctet(msg, pos, |tag| % 256, []);
      SkipTags(msg, pos + 1 + |tag|, labels[1..]);
    }
  }

  lemma SkipWire(msg: seq<Byte>, pos: nat, n: WireName)
    requires ValidName(n) && Matches(msg, EncodeWire(n), pos)
    ensures SkipName(msg, pos) == Some(pos + |EncodeWire(n)|)
  {
    var ending := if n.jump.Some? then [n.jump.value.0, n.jump.value.1] else [0];
    MatchesConcat(msg, EncodeTags(n.labels), ending, pos);
    SkipTags(msg, pos, n.labels);
    var at := pos + |EncodeTags(n.labels)|;
    assert msg[at..at + |ending|][0] == msg[at];
  }

  lemma {:induction false} ReadParams(msg: seq<Byte>, p: nat, end: nat, params: seq<Param>)
    requires ValidParams(params) && end <= |msg| && Matches(msg, EncodeParams(params), p)
    requires p + |EncodeParams(params)| == end
    ensures Gives(msg, Params(msg, p, end), EchOf(params))
    decreases |params|
  {
    hide Matches, Be16, Varint.Octets;
    if params != [] {
      var x, rest := params[0], EncodeParams(params[1..]);
      assert x in params && forall y | y in params[1..] :: y in params;
      var k, l := Varint.Octets(x.key, 2), Varint.Octets(|x.value|, 2);
      MatchesConcat(msg, k + l + x.value, rest, p);
      MatchesConcat(msg, k + l, x.value, p);
      MatchesConcat(msg, k, l, p);
      ReadBe16(msg, p, x.key);
      ReadBe16(msg, p + 2, |x.value|);
      Stood(msg, p + 4, x.value);
      if x.key != SVCPARAM_ECH {
        ReadParams(msg, p + 4 + |x.value|, end, params[1..]);
      }
    }
  }

  lemma ReadHttps(msg: seq<Byte>, start: nat, r: Record)
    requires ValidRecord(r) && r.Https? && Matches(msg, Rdata(r), start)
    ensures start + |Rdata(r)| <= |msg| && Gives(msg, SvcParams(msg, start, |Rdata(r)|), EchOf(r.params))
  {
    hide SkipName, EncodeWire, EncodeParams, Params, Matches, Be16, Gives;
    var w := EncodeWire(r.target);
    Fits(msg, Rdata(r), start);
    MatchesConcat(msg, r.priority + w, EncodeParams(r.params), start);
    MatchesConcat(msg, r.priority, w, start);
    SkipWire(msg, start + 2, r.target);
    ReadParams(msg, start + 2 + |w|, start + |Rdata(r)|, r.params);
  }

  /** The fields of a record, where it stands. */
  lemma ReadRecord(msg: seq<Byte>, pos: nat, r: Record)
    requires ValidRecord(r) && Matches(msg, EncodeRecord(r), pos)
    ensures var at := pos + |EncodeWire(r.name)|;
            && SkipName(msg, pos) == Some(at) && at + 10 + |Rdata(r)| == pos + |EncodeRecord(r)| <= |msg|
            && Be16(msg, at) == TypeOf(r) && Be16(msg, at + 8) == |Rdata(r)| && Matches(msg, Rdata(r), at + 10)
  {
    hide SkipName, EncodeWire, Rdata, Matches, Be16, Varint.Octets;
    var w, t, l, d := EncodeWire(r.name), Varint.Octets(TypeOf(r), 2), Varint.Octets(|Rdata(r)|, 2), Rdata(r);
    var at := pos + |w|;
    MatchesConcat(msg, w, t + r.classTtl + l + d, pos);
    MatchesConcat(msg, t + r.classTtl + l, d, at);
    MatchesConcat(msg, t + r.classTtl, l, at);
    MatchesConcat(msg, t, r.classTtl, at);
    SkipWire(msg, pos, r.name);
    ReadBe16(msg, at, TypeOf(r));
    ReadBe16(msg, at + 8, |d|);
    Fits(msg, d, at + 10);
  }

  lemma {:induction false} ReadRecords(msg: seq<Byte>, pos: nat, rs: seq<Record>)
    requires (forall r | r in rs :: ValidRecord(r)) && Matches(msg, EncodeRecords(rs), pos)
    ensures Gives(msg, Answers(msg, pos, |rs|), FirstEch(rs))
    decreases |rs|
  {
    hide SkipName, EncodeRecord, SvcParams, Rdata, ValidRecord, Matches, Be16, Gives, EncodeWire;
    if rs != [] {
      var r, rest := rs[0], EncodeRecords(rs[1..]);
      assert r in rs && forall x | x in rs[1..] :: x in rs;
      MatchesConcat(msg, EncodeRecord(r), rest, pos);
      ReadRecord(msg, pos, r);
      TypeIsHttps(r);
      if r.Https? {
        ReadHttps(msg, pos + |EncodeWire(r.name)| + 10, r);
      }
      ReadRecords(msg, pos + |EncodeRecord(r)|, rs[1..]);
      GivesKind(msg, SvcParamsAt(msg, pos, r), if r.Https? then EchOf(r.params) else None);
    } else {
      NothingGiven(msg);
    }
  }

  function SvcParamsAt(msg: seq<Byte>, pos: nat, r: Record): Option<(nat, nat)> {
    var start := pos + |EncodeWire(r.name)| + 10;
    if r.Https? && start + |Rdata(r)| <= |msg| then SvcParams(msg, start, |Rdata(r)|) else None
  }

  lemma GivesKind(msg: seq<Byte>, range: Option<(nat, nat)>, value: Option<seq<Byte>>)
    ensures Gives(msg, range, value) ==> (range.Some? <==> value.Some?)
  {
  }

  lemma NothingGiven(msg: seq<Byte>)
    ensures Gives(msg, None, None)
  {
  }

  lemma TypeIsHttps(r: Record)
    requires ValidRecord(r)
    ensures TypeOf(r) == RR_HTTPS <==> r.Https?
  {
  }

  lemma {:induction false} ReadQuestions(msg: seq<Byte>, pos: nat, qs: seq<Question>)
    requires (forall q | q in qs :: ValidName(q.name) && |q.typeClass| == 4) && Matches(msg, EncodeQuestions(qs), pos)
    ensures Questions(msg, pos, |qs|) == Some(pos + |EncodeQuestions(qs)|)
    decreases |qs|
  {
    hide SkipName, EncodeWire, Matches, ValidName;
    if qs != [] {
      var q, rest := qs[0], EncodeQuestions(qs[1..]);
      assert q in qs && forall x | x in qs[1..] :: x in qs;
      MatchesConcat(msg, EncodeWire(q.name) + q.typeClass, rest, pos);
      MatchesConcat(msg, EncodeWire(q.name), q.typeClass, pos);
      SkipWire(msg, pos, q.name);
      ReadQuestions(msg, pos + |EncodeWire(q.name)| + 4, qs[1..]);
    }
  }

  lemma ReadHeader(msg: seq<Byte>, r: Reply)
    requires ValidReply(r) && Matches(msg, EncodeReply(r), 0)
    ensures |msg| >= 12 && Be16(msg, 4) == |r.questions| && Be16(msg, 6) == |r.records|
    ensures Matches(msg, EncodeQuestions(r.questions), 12)
    ensures Matches(msg, EncodeRecords(r.records), 12 + |EncodeQuestions(r.questions)|)
  {
    hide EncodeQuestions, EncodeRecords;
    var q, a := Varint.Octets(|r.questions|, 2), Varint.Octets(|r.records|, 2);
    var qs, rs := EncodeQuestions(r.questions), EncodeRecords(r.records);
    MatchesConcat(msg, r.start + q + a + r.counts, qs + rs, 0);
    MatchesConcat(msg, r.start + q + a, r.counts, 0);
    MatchesConcat(msg, r.start + q, a, 0);
    MatchesConcat(msg, r.start, q, 0);
    MatchesConcat(msg, qs, rs, 12);
    ReadBe16(msg, 4, |r.questions|);
    ReadBe16(msg, 6, |r.records|);
  }

  /** From any well-formed reply, whatever follows it, comes the ech value of the first HTTPS record that
      has one, and nothing when none has. */
  lemma WellFormedReply(r: Reply, rest: seq<Byte>)
    requires ValidReply(r)
    ensures var msg := EncodeReply(r) + rest; Gives(msg, EchRange(msg), FirstEch(r.records))
  {
    hide EncodeReply, Answers, Questions, ValidRecord;
    var msg := EncodeReply(r) + rest;
    assert Matches(msg, EncodeReply(r), 0);
    ReadHeader(msg, r);
    ReadQuestions(msg, 12, r.questions);
    ReadRecords(msg, 12 + |EncodeQuestions(r.questions)|, r.records);
  }
}
