/** Questions and answers of the domain name system: the query for a domain and the reply that belongs to
    it. */
module Dns {
  import opened Bytes
  import opened Text

  const RR_HTTPS := 65
  const SVCPARAM_ECH := 5

  function Be16(s: seq<Byte>, at: nat): nat
    requires at + 2 <= |s|
  {
    (s[at] as nat) * 256 + s[at + 1]
  }

  // ---- Questions ----

  predicate LabelByte(b: Byte) {
    48 <= b <= 57 || 65 <= b <= 90 || 97 <= b <= 122 || b == 45 || b == 95
  }

  predicate ValidLabel(tag: seq<Byte>) {
    1 <= |tag| <= 63 && forall b | b in tag :: LabelByte(b)
  }

  function WithoutLastDot(name: seq<Byte>): seq<Byte> {
    if name != [] && name[|name| - 1] == DOT then name[..|name| - 1] else name
  }

  predicate ValidDomain(name: seq<Byte>) {
    var bare := WithoutLastDot(name);
    bare != [] && |bare| <= 253 && forall tag | tag in Split(bare, [DOT]) :: ValidLabel(tag)
  }

  /** Labels with their lengths, the empty ones left out; the length is one octet. */
  function EncodeLabels(labels: seq<seq<Byte>>): seq<Byte> {
    if labels == [] then []
    else (if labels[0] == [] then [] else [|labels[0]| % 256] + labels[0]) + EncodeLabels(labels[1..])
  }

  function LabelsOf(name: seq<Byte>): seq<seq<Byte>> { Split(name, [DOT]) }

  function EncodeName(name: seq<Byte>): seq<Byte> { EncodeLabels(LabelsOf(name)) + [0] }

  function Query(id: nat, name: seq<Byte>, qtype: nat): seq<Byte>
    requires id < 0x1_0000 && qtype < 0x1_0000
  {
    [id / 256, id % 256, 0x01, 0x00, 0x00, 0x01, 0, 0, 0, 0, 0, 0]
    + (EncodeName(name) + [qtype / 256, qtype % 256, 0x00, 0x01])
  }

  method AppendLabels(start: seq<Byte>, labels: seq<seq<Byte>>) returns (q: seq<Byte>)
    ensures q == start + EncodeLabels(labels)
  {
    q := start;
    var i := 0;
    assert labels[0..] == labels;
    while i < |labels|
      invariant i <= |labels| && q + EncodeLabels(labels[i..]) == start + EncodeLabels(labels)
    {
      assert labels[i..][1..] == labels[i + 1..];
      var rest := EncodeLabels(labels[i + 1..]);
      if labels[i] == [] {
        assert [] + rest == rest;
      } else {
        var piece := [|labels[i]| % 256] + labels[i];
        assert q + (piece + rest) == q + piece + rest;
        q := q + piece;
      }
      i := i + 1;
    }
    assert labels[i..] == [] && q + [] == q;
  }

  method BuildQuery(name: seq<Byte>, qtype: nat, id: nat) returns (q: seq<Byte>)
    requires id < 0x1_0000 && qtype < 0x1_0000
    ensures q == Query(id, name, qtype)
  {
    hide EncodeLabels;
    q := [id / 256, id % 256, 0x01, 0x00, 0x00, 0x01, 0, 0, 0, 0, 0, 0];
    q := AppendLabels(q, LabelsOf(name));
    q := q + [0];
    q := q + [qtype / 256, qtype % 256, 0x00, 0x01];
  }

  /** Where the labels end in `msg`, when they stand there up to ASCII case. */
  function MatchLabels(msg: seq<Byte>, pos: nat, labels: seq<seq<Byte>>): Option<nat>
    decreases |labels|
  {
    if labels == [] then Some(pos)
    else if labels[0] == [] then MatchLabels(msg, pos, labels[1..])
    else if pos >= |msg| || msg[pos] != |labels[0]| then None
    else
      var end := pos + 1 + |labels[0]|;
      if end > |msg| || LowerAll(msg[pos + 1..end]) != LowerAll(labels[0]) then None
      else MatchLabels(msg, end, labels[1..])
  }

  predicate HeaderMatches(msg: seq<Byte>, id: nat) {
    |msg| >= 12 && Be16(msg, 0) == id && msg[2] >= 0x80 && Be16(msg, 4) == 1
  }

  predicate IsReply(msg: seq<Byte>, id: nat, name: seq<Byte>, qtype: nat) {
    HeaderMatches(msg, id) &&
    var end := MatchLabels(msg, 12, LabelsOf(name));
    end.Some? && end.value < |msg| && msg[end.value] == 0 && end.value + 5 <= |msg| && Be16(msg, end.value + 1) == qtype
  }

  method ResponseMatches(msg: seq<Byte>, id: nat, name: seq<Byte>, qtype: nat) returns (ok: bool)
    ensures ok == IsReply(msg, id, name, qtype)
  {
    if |msg| < 12 || Be16(msg, 0) != id || msg[2] < 0x80 || Be16(msg, 4) != 1 {
      return false;
    }
    var labels := LabelsOf(name);
    var pos: nat, i := 12, 0;
    assert labels[0..] == labels;
    while i < |labels|
      invariant i <= |labels| && MatchLabels(msg, 12, labels) == MatchLabels(msg, pos, labels[i..])
    {
      assert labels[i..][1..] == labels[i + 1..];
      if labels[i] != [] {
        if pos >= |msg| || msg[pos] != |labels[i]| {
          return false;
        }
        var end := pos + 1 + |labels[i]|;
        if end > |msg| || LowerAll(msg[pos + 1..end]) != LowerAll(labels[i]) {
          return false;
        }
        pos := end;
      }
      i := i + 1;
    }
    return pos < |msg| && msg[pos] == 0 && pos + 5 <= |msg| && Be16(msg, pos + 1) == qtype;
  }

  /** Whether two strings of octets are one up to ASCII case. */
  predicate SameFold(a: seq<Byte>, b: seq<Byte>) { LowerAll(a) == LowerAll(b) }

  lemma SameFoldConcat(a: seq<Byte>, b: seq<Byte>, c: seq<Byte>, d: seq<Byte>)
    requires |a| == |c|
    ensures SameFold(a + b, c + d) <==> SameFold(a, c) && SameFold(b, d)
  {
    assert LowerAll(a + b) == LowerAll(a) + LowerAll(b);
    assert LowerAll(c + d) == LowerAll(c) + LowerAll(d);
    if SameFold(a + b, c + d) {
      assert LowerAll(a) == (LowerAll(a) + LowerAll(b))[..|a|] == (LowerAll(c) + LowerAll(d))[..|a|] == LowerAll(c);
      assert LowerAll(b) == (LowerAll(a) + LowerAll(b))[|a|..] == (LowerAll(c) + LowerAll(d))[|a|..] == LowerAll(d);
    }
  }

  /** A length octet, below every letter, matches up to case only itself. */
  lemma SameFoldLength(b: Byte, len: Byte)
    requires len < 64
    ensures SameFold([b], [len]) <==> b == len
  {
    assert LowerAll([b])[0] == Lower(b) && LowerAll([len])[0] == Lower(len) == len;
    if Lower(b) == len {
      assert LowerAll([b]) == LowerAll([len]);
    }
  }

  /** Where `code` ends in `msg`, when it stands at `pos` up to case. */
  function Stands(msg: seq<Byte>, pos: nat, code: seq<Byte>): Option<nat> {
    var end := pos + |code|;
    if end <= |msg| && SameFold(msg[pos..end], code) then Some(end) else None
  }

  lemma StandsConcat(msg: seq<Byte>, pos: nat, a: seq<Byte>, b: seq<Byte>)
    ensures Stands(msg, pos, a + b) == if Stands(msg, pos, a).Some? then Stands(msg, pos + |a|, b) else None
  {
    hide LowerAll;
    var mid, end := pos + |a|, pos + |a| + |b|;
    if end <= |msg| {
      assert msg[pos..end] == msg[pos..mid] + msg[mid..end];
      SameFoldConcat(msg[pos..mid], msg[mid..end], a, b);
    }
  }

  /** Labels short enough stand in a message exactly when their encoding does, up to case. */
  lemma {:induction false} MatchLabelsIff(msg: seq<Byte>, pos: nat, labels: seq<seq<Byte>>)
    requires pos <= |msg| && forall tag | tag in labels :: |tag| <= 63
    ensures MatchLabels(msg, pos, labels) == Stands(msg, pos, EncodeLabels(labels))
    decreases |labels|
  {
    hide Stands, LowerAll;
    if labels == [] {
      StandsEmpty(msg, pos);
    } else {
      var tag, rest := labels[0], EncodeLabels(labels[1..]);
      assert tag in labels && forall l | l in labels[1..] :: l in labels;
      if tag == [] {
        assert [] + rest == rest;
        MatchLabelsIff(msg, pos, labels[1..]);
      } else {
        StandsConcat(msg, pos, [|tag| % 256] + tag, rest);
        OneLabel(msg, pos, tag);
        if pos + 1 + |tag| <= |msg| {
          MatchLabelsIff(msg, pos + 1 + |tag|, labels[1..]);
        }
      }
    }
  }

  lemma StandsEmpty(msg: seq<Byte>, pos: nat)
    requires pos <= |msg|
    ensures Stands(msg, pos, []) == Some(pos)
  {
    assert msg[pos..pos] == [];
  }

  lemma OneLabel(msg: seq<Byte>, pos: nat, tag: seq<Byte>)
    requires 1 <= |tag| <= 63
    ensures var end := pos + 1 + |tag|;
            Stands(msg, pos, [|tag| % 256] + tag) ==
            if end <= |msg| && msg[pos] == |tag| && LowerAll(msg[pos + 1..end]) == LowerAll(tag) then Some(end)
            else None
  {
    hide LowerAll;
    var end := pos + 1 + |tag|;
    if end <= |msg| {
      assert msg[pos..end] == [msg[pos]] + msg[pos + 1..end];
      SameFoldConcat([msg[pos]], msg[pos + 1..end], [|tag| % 256], tag);
      SameFoldLength(msg[pos], |tag| % 256);
    }
  }

  /** A reply is taken for an answer to the question exactly when its header says so and its question
      section is the one that was asked, up to ASCII case, with the type asked for. */
  lemma AcceptsExactlyTheQuestion(msg: seq<Byte>, id: nat, name: seq<Byte>, qtype: nat)
    requires forall tag | tag in LabelsOf(name) :: |tag| <= 63
    ensures var code := EncodeName(name);
            var end := 12 + |code|;
            IsReply(msg, id, name, qtype) <==>
            && end + 4 <= |msg|
            && (msg[0] as nat) * 256 + msg[1] == id && msg[2] >= 0x80 && msg[4] == 0 && msg[5] == 1
            && SameFold(msg[12..end], code) && (msg[end] as nat) * 256 + msg[end + 1] == qtype
  {
    hide LowerAll, LabelsOf, EncodeLabels;
    if |msg| >= 12 {
      var labels := LabelsOf(name);
      var mid := 12 + |EncodeLabels(labels)|;
      MatchLabelsIff(msg, 12, labels);
      if mid < |msg| {
        assert msg[12..mid + 1] == msg[12..mid] + [msg[mid]];
        SameFoldConcat(msg[12..mid], [msg[mid]], EncodeLabels(labels), [0]);
        SameFoldLength(msg[mid], 0);
      }
    }
  }

  /** A valid domain's labels, with a trailing dot or without, are short. */
  lemma ValidLabels(name: seq<Byte>)
    requires ValidDomain(name)
    ensures forall tag | tag in LabelsOf(name) :: |tag| <= 63
  {
    hide ValidLabel;
    var bare := WithoutLastDot(name);
    if bare != name {
      assert name == bare + [DOT];
      SplitLastDot(bare);
    }
    forall tag | tag in LabelsOf(name)
      ensures |tag| <= 63
    {
      if tag != [] {
        assert ValidLabel(tag);
        ShortLabel(tag);
      }
    }
  }

  lemma ShortLabel(tag: seq<Byte>)
    requires ValidLabel(tag)
    ensures |tag| <= 63
  {
  }

  lemma {:induction false} SplitLastDot(s: seq<Byte>)
    ensures Split(s + [DOT], [DOT]) == Split(s, [DOT]) + [[]]
    decreases |s|
  {
    var at := First(s, [DOT], 0);
    if at.Some? {
      FirstExtends(s, [DOT], [DOT], 0);
      assert (s + [DOT])[at.value + 1..] == s[at.value + 1..] + [DOT];
      SplitLastDot(s[at.value + 1..]);
      assert (s + [DOT])[..at.value] == s[..at.value];
    } else {
      forall j: nat | j < |s|
        ensures !Matches(s + [DOT], [DOT], j)
      {
        assert !Matches(s, [DOT], j);
        MatchesExtends(s, [DOT], [DOT], j);
      }
      assert Matches(s + [DOT], [DOT], |s|);
      FirstFrom(s + [DOT], [DOT], 0, |s|);
      assert (s + [DOT])[|s| + 1..] == [] && (s + [DOT])[..|s|] == s;
      assert Split([], [DOT]) == [[]];
    }
  }

  function AsReply(query: seq<Byte>): seq<Byte>
    requires |query| >= 3 && query[2] < 0x80
  {
    query[2 := query[2] + 0x80]
  }

  /** The query for a valid domain, sent back as a reply, is accepted. */
  lemma QueryIsAccepted(id: nat, name: seq<Byte>, qtype: nat)
    requires ValidDomain(name) && id < 0x1_0000 && qtype < 0x1_0000
    ensures IsReply(AsReply(Query(id, name, qtype)), id, name, qtype)
  {
    hide EncodeName, ValidDomain, IsReply;
    ValidLabels(name);
    var q, code := Query(id, name, qtype), EncodeName(name);
    var msg := AsReply(q);
    var end := 12 + |code|;
    assert msg[12..end] == q[12..end] == code;
    assert msg[end] == qtype / 256 && msg[end + 1] == qtype % 256;
    AcceptsExactlyTheQuestion(msg, id, name, qtype);
  }
}
