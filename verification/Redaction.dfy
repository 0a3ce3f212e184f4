/** PEM redaction in free text: the rewriting loops of internal/audit/sanitize.go:181-201 and
internal/velociraptor/grpcclient.go:553-577 against one left-to-right pass.

Everything is proved for any two markers and placeholder that do not run into each other
(`Safe`); `PemSafe` shows that the ones in the program, the encapsulation boundaries of
section 2 of RFC 7468, are of that kind. */
module Redaction {
  import opened Text

  datatype Marks = Marks(begin: string, end: string, placeholder: string)

  const PEM := Marks("-----BEGIN", "-----END", "[REDACTED]")

  /** Where the block at the start of `s` stops: just after the line that holds its first end
      marker, or -1 when there is no such line. */
  function BlockEnd(m: Marks, s: string): (n: int)
    ensures n == -1 || 0 < n <= |s|
  {
    var end := Index(s, m.end);
    if end == -1 then -1
    else
      var nl := Index(s[end..], "\n");
      if nl == -1 then -1 else end + nl + 1
  }

  /** One pass over the text: keep up to the first begin marker, put the placeholder, go on
      after the block; a block without an end takes everything. */
  function Redact(m: Marks, s: string): (r: string)
    decreases |s|
  {
    var idx := Index(s, m.begin);
    if idx == -1 then s
    else
      var n := BlockEnd(m, s[idx..]);
      if n == -1 then s[..idx] + m.placeholder else s[..idx] + m.placeholder + Redact(m, s[idx + n..])
  }

  // ----- markers that do not run into each other

  /** No `b` starts inside an `a`, from offset `lo` on. */
  ghost predicate Clear(a: string, b: string, lo: nat) {
    forall k: nat | lo <= k < |a| :: Differ(a, b, k)
  }

  ghost predicate Differ(a: string, b: string, k: nat) {
    exists j :: 0 <= j < |b| && k + j < |a| && a[k + j] != b[j]
  }

  ghost predicate Safe(m: Marks) {
    && m.begin != "" && m.end != "" && 0 < |m.placeholder| <= |m.begin|
    && m.placeholder[0] !in m.begin && m.placeholder[|m.placeholder| - 1] !in m.begin
    && Clear(m.begin, m.begin, 1) && Clear(m.end, m.end, 1) && Clear(m.begin, m.end, 0)
    && '\n' !in m.end
  }

  /** Five dashes and then none. */
  predicate Dashed(w: string) {
    |w| > 5 && forall i | 0 <= i < |w| :: w[i] == '-' <==> i < 5
  }

  lemma DashedClear(a: string, b: string, lo: nat)
    requires Dashed(a) && Dashed(b) && (lo >= 1 || a[5] != b[5])
    ensures Clear(a, b, lo)
  {
    forall k: nat | lo <= k < |a| ensures Differ(a, b, k) {
      var j := if k < 5 then 5 - k else 0;
      assert a[k + j] != b[j];
    }
  }

  /** The program's markers are safe, and each rewrite removes at least nine bytes net. */
  lemma PemSafe()
    ensures Safe(PEM)
    ensures |PEM.begin| + |PEM.end| + 1 - |PEM.placeholder| == 9
  {
    assert Dashed(PEM.begin) && Dashed(PEM.end);
    DashedClear(PEM.begin, PEM.begin, 1);
    DashedClear(PEM.end, PEM.end, 1);
    DashedClear(PEM.begin, PEM.end, 0);
  }

  lemma OccursChar(s: string, sub: string, i: int, k: int)
    requires OccursAt(s, sub, i) && 0 <= k < |sub|
    ensures s[i + k] == sub[k]
  {
  }

  lemma MarksApart(s: string, a: string, b: string, lo: nat, i: int, j: int)
    requires Clear(a, b, lo) && OccursAt(s, a, i) && OccursAt(s, b, j) && i + lo <= j
    ensures i + |a| <= j
  {
    if j < i + |a| {
      assert Differ(a, b, j - i);
      var k :| 0 <= k < |b| && j - i + k < |a| && a[j - i + k] != b[k];
      OccursChar(s, a, i, j - i + k);
      OccursChar(s, b, j, k);
    }
  }

  // ----- occurrences in a concatenation

  lemma OccursRight(a: string, b: string, sub: string, i: int)
    requires i >= 0
    ensures OccursAt(a + b, sub, |a| + i) <==> OccursAt(b, sub, i)
  {
  }

  lemma OccursLeft(a: string, b: string, sub: string, i: int)
    requires i + |sub| <= |a|
    ensures OccursAt(a + b, sub, i) <==> OccursAt(a, sub, i)
  {
  }

  /** `a` has no begin marker and cannot start one that its successor finishes. */
  ghost predicate Sealed(m: Marks, a: string) {
    !Contains(a, m.begin) && (a == "" || a[|a| - 1] !in m.begin)
  }

  /** No begin marker starts inside a sealed prefix. */
  lemma NoneInside(m: Marks, a: string, b: string, i: int)
    requires Sealed(m, a) && OccursAt(a + b, m.begin, i)
    ensures |a| <= i
  {
    if i < |a| {
      if i + |m.begin| <= |a| {
        OccursLeft(a, b, m.begin, i);
      } else {
        OccursChar(a + b, m.begin, i, |a| - 1 - i);
      }
    }
  }

  /** Searching behind a sealed prefix is searching the rest. */
  lemma SearchBehind(m: Marks, a: string, b: string)
    requires Sealed(m, a)
    ensures Index(a + b, m.begin) == if Index(b, m.begin) == -1 then -1 else |a| + Index(b, m.begin)
  {
    var x, y := Index(a + b, m.begin), Index(b, m.begin);
    if x != -1 {
      NoneInside(m, a, b, x);
      OccursRight(a, b, m.begin, x - |a|);
    }
    if y != -1 { OccursRight(a, b, m.begin, y); }
  }

  /** Text cut just before its first begin marker has none. */
  lemma CutHasNone(s: string, sub: string)
    requires Index(s, sub) != -1 && sub != ""
    ensures !Contains(s[..Index(s, sub)], sub)
  {
    var p, q := s[..Index(s, sub)], s[Index(s, sub)..];
    assert p + q == s;
    if i :| OccursAt(p, sub, i) { OccursLeft(p, q, sub, i); }
  }

  /** No begin marker reaches into the placeholder. */
  lemma PlaceholderSeals(m: Marks, p: string)
    requires Safe(m) && !Contains(p, m.begin)
    ensures Sealed(m, p + m.placeholder)
  {
    var s := p + m.placeholder;
    if i :| OccursAt(s, m.begin, i) {
      if i + |m.begin| <= |p| {
        OccursLeft(p, m.placeholder, m.begin, i);
      } else {
        OccursChar(s, m.begin, i, |p| - i);
      }
    }
  }

  /** Keeping text up to the first begin marker and adding the placeholder seals it. */
  lemma Seals(m: Marks, a: string, b: string, idx: int)
    requires Safe(m) && Sealed(m, a) && idx == Index(b, m.begin) && idx != -1
    ensures Sealed(m, a + b[..idx] + m.placeholder)
  {
    CutHasNone(b, m.begin);
    SearchBehind(m, a, b[..idx]);
    PlaceholderSeals(m, a + b[..idx]);
  }

  /** What follows the first placeholder. */
  function Remainder(m: Marks, s: string): (r: string)
    requires Index(s, m.begin) != -1
  {
    var n := BlockEnd(m, s[Index(s, m.begin)..]);
    if n == -1 then "" else Redact(m, s[Index(s, m.begin) + n..])
  }

  lemma CutBehind(a: string, b: string, i: int)
    requires 0 <= i <= |b|
    ensures (a + b)[|a| + i..] == b[i..] && (a + b)[..|a| + i] == a + b[..i]
  {
  }

  lemma Unfold(m: Marks, a: string, s: string)
    requires Index(s, m.begin) != -1
    ensures a + Redact(m, s) == (a + s[..Index(s, m.begin)] + m.placeholder) + Remainder(m, s)
  {
  }

  // ----- the result

  /** Nothing that follows a sealed prefix brings a begin marker back. */
  lemma {:induction false} RedactSealed(m: Marks, a: string, s: string)
    requires Safe(m) && Sealed(m, a)
    ensures !Contains(a + Redact(m, s), m.begin)
    decreases |s|
  {
    var idx := Index(s, m.begin);
    if idx == -1 {
      SearchBehind(m, a, s);
    } else {
      Seals(m, a, s, idx);
      var b := a + s[..idx] + m.placeholder;
      var n := BlockEnd(m, s[idx..]);
      Unfold(m, a, s);
      if n == -1 {
        assert b + "" == b;
      } else {
        RedactSealed(m, b, s[idx + n..]);
      }
    }
  }

  /** The result has no begin marker. */
  lemma RedactLeavesNoMarker(m: Marks, s: string)
    requires Safe(m)
    ensures !Contains(Redact(m, s), m.begin)
  {
    RedactSealed(m, "", s);
    assert "" + Redact(m, s) == Redact(m, s);
  }

  /** Redacting is idempotent, and it changes exactly the texts with a begin marker. */
  lemma RedactIdempotent(m: Marks, s: string)
    requires Safe(m)
    ensures Redact(m, Redact(m, s)) == Redact(m, s)
    ensures Redact(m, s) == s <==> !Contains(s, m.begin)
  {
    RedactLeavesNoMarker(m, s);
  }

  /** The same for the markers of the program. */
  lemma PemRedacted(s: string)
    ensures !Contains(Redact(PEM, s), PEM.begin) && Redact(PEM, Redact(PEM, s)) == Redact(PEM, s)
    ensures Redact(PEM, s) == s <==> !Contains(s, PEM.begin)
  {
    PemSafe();
    RedactLeavesNoMarker(PEM, s);
    RedactIdempotent(PEM, s);
  }

  function Block(m: Marks, body: string, line: string): (s: string) {
    m.begin + body + m.end + line + "\n"
  }

  /** A block is replaced by the placeholder, the text before it stays as it is, and the text
      after its end line is treated as if it stood alone. */
  lemma BlockExcised(m: Marks, pre: string, body: string, line: string, post: string)
    requires Safe(m) && !Contains(pre, m.begin) && !Contains(body, m.end) && '\n' !in line
    ensures Redact(m, pre + Block(m, body, line) + post) == pre + m.placeholder + Redact(m, post)
  {
    var rest := Block(m, body, line) + post;
    var s := pre + Block(m, body, line) + post;
    assert s == pre + rest;
    assert OccursAt(rest, m.begin, 0) by { assert rest[..|m.begin|] == m.begin; }
    FirstBegin(m, pre, rest);
    assert s[|pre|..] == rest && s[..|pre|] == pre;
    BlockExtent(m, body, line, post);
    assert s[|pre| + |Block(m, body, line)|..] == post;
  }

  /** A block without an end marker takes the rest of the text. */
  lemma OpenBlockTakesAll(m: Marks, pre: string, body: string)
    requires Safe(m) && !Contains(pre, m.begin) && !Contains(body, m.end)
    ensures Redact(m, pre + (m.begin + body)) == pre + m.placeholder
  {
    var rest := m.begin + body;
    assert OccursAt(rest, m.begin, 0) by { assert rest[..|m.begin|] == m.begin; }
    FirstBegin(m, pre, rest);
    assert (pre + rest)[|pre|..] == rest && (pre + rest)[..|pre|] == pre;
    NoEnd(m, body);
  }

  lemma NoEnd(m: Marks, body: string)
    requires Safe(m) && !Contains(body, m.end)
    ensures !Contains(m.begin + body, m.end)
  {
    var s := m.begin + body;
    if x :| OccursAt(s, m.end, x) {
      assert OccursAt(s, m.begin, 0) by { assert s[..|m.begin|] == m.begin; }
      MarksApart(s, m.begin, m.end, 0, 0, x);
      OccursRight(m.begin, body, m.end, x - |m.begin|);
    }
  }

  /** So does a block whose end line is not finished. */
  lemma UnfinishedLineTakesAll(m: Marks, pre: string, body: string, line: string)
    requires Safe(m) && !Contains(pre, m.begin) && !Contains(body, m.end) && '\n' !in line
    ensures Redact(m, pre + (m.begin + body + m.end + line)) == pre + m.placeholder
  {
    var tail := m.end + line;
    var rest := m.begin + body + m.end + line;
    assert rest == m.begin + body + tail;
    assert OccursAt(rest, m.begin, 0) by { assert rest[..|m.begin|] == m.begin; }
    FirstBegin(m, pre, rest);
    assert (pre + rest)[|pre|..] == rest && (pre + rest)[..|pre|] == pre;
    FirstEnd(m, body, tail) by { assert tail[..|m.end|] == m.end; }
    assert rest[|m.begin + body|..] == tail;
    NoneOf(tail, '\n');
    assert ['\n'] == "\n";
  }

  lemma NoneOf(s: string, c: char)
    requires c !in s
    ensures Index(s, [c]) == -1
  {
    if x :| OccursAt(s, [c], x) { OccursChar(s, [c], x, 0); }
  }

  // ----- every text is plain text and blocks

  /** A text as a reader sees it: plain text to its end; plain text and a block that never ends;
      or plain text, a whole block, and more text. */
  datatype Reading =
    | Plain(text: string)
    | Open(pre: string, body: string)
    | Unfinished(pre: string, body: string, line: string)
    | Then(pre: string, body: string, line: string, rest: Reading)

  predicate Proper(m: Marks, r: Reading) {
    match r
    case Plain(text) => Index(text, m.begin) == -1
    case Open(pre, body) => Index(pre, m.begin) == -1 && Index(body, m.end) == -1
    case Unfinished(pre, body, line) => Index(pre, m.begin) == -1 && Index(body, m.end) == -1 && '\n' !in line
    case Then(pre, body, line, rest) =>
      Index(pre, m.begin) == -1 && Index(body, m.end) == -1 && '\n' !in line && Proper(m, rest)
  }

  function Written(m: Marks, r: Reading): (s: string) {
    match r
    case Plain(text) => text
    case Open(pre, body) => pre + (m.begin + body)
    case Unfinished(pre, body, line) => pre + (m.begin + body + m.end + line)
    case Then(pre, body, line, rest) => pre + Block(m, body, line) + Written(m, rest)
  }

  /** The same reading with every block blotted out. */
  function Blotted(m: Marks, r: Reading): (s: string) {
    match r
    case Plain(text) => text
    case Open(pre, _) => pre + m.placeholder
    case Unfinished(pre, _, _) => pre + m.placeholder
    case Then(pre, _, _, rest) => pre + m.placeholder + Blotted(m, rest)
  }

  /** Redacting blots out exactly the blocks, whatever they hold and however the text ends. */
  lemma {:induction false} RedactBlotsBlocks(m: Marks, r: Reading)
    requires Safe(m) && Proper(m, r)
    ensures Redact(m, Written(m, r)) == Blotted(m, r)
  {
    match r
    case Plain(text) =>
    case Open(pre, body) => OpenBlockTakesAll(m, pre, body);
    case Unfinished(pre, body, line) => UnfinishedLineTakesAll(m, pre, body, line);
    case Then(pre, body, line, rest) =>
      RedactBlotsBlocks(m, rest);
      BlockExcised(m, pre, body, line, Written(m, rest));
  }

  lemma EndInside(m: Marks, b: string)
    requires Safe(m) && OccursAt(b, m.begin, 0) && Contains(b, m.end)
    ensures |m.begin| <= Index(b, m.end)
  {
    MarksApart(b, m.begin, m.end, 0, 0, Index(b, m.end));
  }

  lemma BeforeEndHasNone(a: string, body: string, tail: string, sub: string)
    requires sub != "" && Index(a + body + tail, sub) == |a + body|
    ensures Index(body, sub) == -1
  {
    var x := Index(body, sub);
    if x != -1 {
      OccursRight(a, body, sub, x);
      OccursLeft(a + body, tail, sub, |a| + x);
    }
  }

  /** The body, the end marker and what follows, of a text that starts with a begin marker. */
  lemma SplitsAtEnd(m: Marks, b: string) returns (body: string, tail: string)
    requires Safe(m) && OccursAt(b, m.begin, 0) && Contains(b, m.end)
    ensures b == m.begin + body + (m.end + tail) && Index(body, m.end) == -1
  {
    EndInside(m, b);
    var end := Index(b, m.end);
    body, tail := b[|m.begin|..end], b[end + |m.end|..];
    assert b == m.begin + body + (m.end + tail) by {
      assert b[..|m.begin|] == m.begin && b[end..end + |m.end|] == m.end;
      assert b == b[..|m.begin|] + body + (b[end..end + |m.end|] + tail);
    }
    BeforeEndHasNone(m.begin, body, m.end + tail, m.end);
  }

  lemma SplitsAtNewline(m: Marks, tail: string) returns (line: string, more: string)
    requires Safe(m) && Index(m.end + tail, "\n") != -1
    ensures tail == line + "\n" + more && '\n' !in line
  {
    var s := m.end + tail;
    var nl := Index(s, "\n");
    OccursChar(s, "\n", nl, 0);
    assert s[nl] == '\n' && nl >= |m.end|;
    line, more := tail[..nl - |m.end|], tail[nl - |m.end| + 1..];
    assert tail[nl - |m.end|] == '\n';
    forall i | 0 <= i < |line| ensures line[i] != '\n' {
      assert s[|m.end| + i] == line[i];
      assert !OccursAt(s, "\n", |m.end| + i);
      assert s[|m.end| + i..|m.end| + i + 1] == [line[i]];
    }
  }

  lemma NoNewlineIn(s: string)
    requires Index(s, "\n") == -1
    ensures '\n' !in s
  {
    forall i | 0 <= i < |s| ensures s[i] != '\n' {
      assert !OccursAt(s, "\n", i);
      assert s[i..i + 1] == [s[i]];
    }
  }

  lemma ReadsOpen(m: Marks, pre: string, b: string) returns (r: Reading)
    requires Safe(m) && Index(pre, m.begin) == -1 && OccursAt(b, m.begin, 0) && Index(b, m.end) == -1
    ensures Proper(m, r) && Written(m, r) == pre + b
  {
    var body := b[|m.begin|..];
    assert b == m.begin + body by { assert b[..|m.begin|] == m.begin; }
    var x := Index(body, m.end);
    if x != -1 { OccursRight(m.begin, body, m.end, x); }
    r := Open(pre, body);
  }

  lemma ReadsUnfinished(m: Marks, pre: string, body: string, tail: string) returns (r: Reading)
    requires Safe(m) && Index(pre, m.begin) == -1 && Index(body, m.end) == -1 && Index(m.end + tail, "\n") == -1
    ensures Proper(m, r) && Written(m, r) == pre + (m.begin + body + (m.end + tail))
  {
    NoNewlineIn(m.end + tail);
    assert forall i | 0 <= i < |tail| :: tail[i] == (m.end + tail)[|m.end| + i];
    r := Unfinished(pre, body, tail);
    assert m.begin + body + (m.end + tail) == m.begin + body + m.end + tail;
  }

  lemma BlockThenMore(m: Marks, pre: string, body: string, line: string, more: string)
    ensures pre + Block(m, body, line) + more == pre + (m.begin + body + (m.end + (line + "\n" + more)))
  {
    assert Block(m, body, line) + more == m.begin + body + (m.end + (line + "\n" + more));
    assert pre + Block(m, body, line) + more == pre + (Block(m, body, line) + more);
  }

  /** Every text can be read in this way. */
  lemma {:induction false} EveryTextReads(m: Marks, s: string) returns (r: Reading)
    requires Safe(m)
    ensures Proper(m, r) && Written(m, r) == s
    decreases |s|
  {
    var idx := Index(s, m.begin);
    if idx == -1 {
      r := Plain(s);
    } else {
      var pre, b := s[..idx], s[idx..];
      assert s == pre + b;
      assert Index(pre, m.begin) == -1 by { CutHasNone(s, m.begin); }
      assert OccursAt(b, m.begin, 0) by { assert b[..|m.begin|] == s[idx..idx + |m.begin|]; }
      if Index(b, m.end) == -1 {
        r := ReadsOpen(m, pre, b);
      } else {
        var body, tail := SplitsAtEnd(m, b);
        if Index(m.end + tail, "\n") == -1 {
          r := ReadsUnfinished(m, pre, body, tail);
        } else {
          var line, more := SplitsAtNewline(m, tail);
          var rest := EveryTextReads(m, more);
          r := Then(pre, body, line, rest);
          BlockThenMore(m, pre, body, line, more);
        }
      }
    }
  }

  /** Two readings that agree outside their blocks. */
  predicate AgreeOutside(r: Reading, q: Reading) {
    match r
    case Plain(text) => q == r
    case Then(pre, _, _, rest) => q.Then? && q.pre == pre && AgreeOutside(rest, q.rest)
    case _ => (q.Open? || q.Unfinished?) && q.pre == r.pre
  }

  /** Texts that differ only inside their blocks redact alike: nothing of a block gets out. */
  lemma {:induction false} BlocksDoNotMatter(m: Marks, r: Reading, q: Reading)
    requires Safe(m) && Proper(m, r) && Proper(m, q) && AgreeOutside(r, q)
    ensures Redact(m, Written(m, r)) == Redact(m, Written(m, q))
  {
    RedactBlotsBlocks(m, r);
    RedactBlotsBlocks(m, q);
    SameBlots(m, r, q);
  }

  lemma {:induction false} SameBlots(m: Marks, r: Reading, q: Reading)
    requires AgreeOutside(r, q)
    ensures Blotted(m, r) == Blotted(m, q)
  {
    if r.Then? { SameBlots(m, r.rest, q.rest); }
  }

  lemma FirstBegin(m: Marks, pre: string, rest: string)
    requires Safe(m) && !Contains(pre, m.begin) && OccursAt(rest, m.begin, 0)
    ensures Index(pre + rest, m.begin) == |pre|
  {
    OccursRight(pre, rest, m.begin, 0);
    var x := Index(pre + rest, m.begin);
    if x < |pre| {
      MarksApart(pre + rest, m.begin, m.begin, 1, x, |pre|);
      OccursLeft(pre, rest, m.begin, x);
    }
  }

  lemma BlockExtent(m: Marks, body: string, line: string, post: string)
    requires Safe(m) && !Contains(body, m.end) && '\n' !in line
    ensures BlockEnd(m, Block(m, body, line) + post) == |Block(m, body, line)|
  {
    var head := m.begin + body;
    var tail := m.end + line + "\n" + post;
    var s := Block(m, body, line) + post;
    assert s == head + tail;
    FirstEnd(m, body, tail) by { assert tail[..|m.end|] == m.end; }
    assert s[|head|..] == tail;
    FirstOf(m.end + line, '\n', post);
    assert ['\n'] == "\n";
  }

  /** An end marker before `tail` would lie in the body. */
  lemma EndInBody(m: Marks, body: string, tail: string, x: int)
    requires Safe(m) && OccursAt(tail, m.end, 0) && OccursAt(m.begin + body + tail, m.end, x) && x < |m.begin + body|
    ensures OccursAt(body, m.end, x - |m.begin|)
  {
    var head := m.begin + body;
    var s := head + tail;
    OccursRight(head, tail, m.end, 0);
    MarksApart(s, m.end, m.end, 1, x, |head|);
    assert OccursAt(s, m.begin, 0) by { assert s[..|m.begin|] == m.begin; }
    MarksApart(s, m.begin, m.end, 0, 0, x);
    OccursLeft(head, tail, m.end, x);
    OccursRight(m.begin, body, m.end, x - |m.begin|);
  }

  lemma FirstEnd(m: Marks, body: string, tail: string)
    requires Safe(m) && !Contains(body, m.end) && OccursAt(tail, m.end, 0)
    ensures Index(m.begin + body + tail, m.end) == |m.begin + body|
  {
    OccursRight(m.begin + body, tail, m.end, 0);
    var x := Index(m.begin + body + tail, m.end);
    if x < |m.begin + body| { EndInBody(m, body, tail, x); }
  }

  lemma FirstOf(a: string, c: char, b: string)
    requires c !in a
    ensures Index(a + [c] + b, [c]) == |a|
  {
    var s := a + [c] + b;
    assert s[|a|..|a| + 1] == [c];
    assert OccursAt(s, [c], |a|);
    var x := Index(s, [c]);
    OccursChar(s, [c], x, 0);
    assert s[x] == c;
  }

  /** Every rewrite that does not end the loop makes the text shorter, by nine bytes or more with
      the program's markers. */
  lemma RewriteShrinks(m: Marks, v: string, idx: int)
    requires Safe(m) && idx == Index(v, m.begin) && idx != -1 && BlockEnd(m, v[idx..]) != -1
    ensures |v[..idx] + m.placeholder + v[idx + BlockEnd(m, v[idx..])..]|
        + (|m.begin| + |m.end| + 1 - |m.placeholder|) <= |v|
  {
    var b := v[idx..];
    assert OccursAt(b, m.begin, 0) by { assert b[..|m.begin|] == v[idx..idx + |m.begin|]; }
    var end := Index(b, m.end);
    MarksApart(b, m.begin, m.end, 0, 0, end);
    var nl := Index(b[end..], "\n");
    OccursChar(b[end..], "\n", nl, 0);
    if nl < |m.end| { OccursChar(b, m.end, end, nl); }
  }

  // ----- the loops

  /** How far a rewriting loop towards `goal` has come: `v` is a finished part and a part still to do. */
  ghost predicate Halfway(m: Marks, goal: string, v: string, done: string, rest: string) {
    v == done + rest && Sealed(m, done) && goal == done + Redact(m, rest)
  }

  lemma HalfwayStart(m: Marks, text: string)
    requires Safe(m)
    ensures Halfway(m, Redact(m, text), text, "", text)
  {
  }

  lemma HalfwayDone(m: Marks, goal: string, v: string, done: string, rest: string)
    requires Halfway(m, goal, v, done, rest) && Index(v, m.begin) == -1
    ensures v == goal
  {
    SearchBehind(m, done, rest);
  }

  /** The block the loop finds in `v` is the first block of the part still to do. */
  lemma HalfwayPlace(m: Marks, v: string, done: string, rest: string, idx: int)
    requires v == done + rest && Sealed(m, done) && idx == Index(v, m.begin) && idx != -1
    ensures Index(rest, m.begin) != -1
    ensures var at := Index(rest, m.begin);
            && v[..idx] == done + rest[..at] && v[idx..] == rest[at..]
            && (BlockEnd(m, v[idx..]) != -1
                ==> v[idx + BlockEnd(m, v[idx..])..] == rest[at + BlockEnd(m, rest[at..])..])
  {
    SearchBehind(m, done, rest);
    var at := Index(rest, m.begin);
    CutBehind(done, rest, at);
    var n := BlockEnd(m, rest[at..]);
    if n != -1 { CutBehind(done, rest, at + n); }
  }

  /** One rewrite, in terms of the two parts. */
  lemma PartsNext(m: Marks, goal: string, done: string, rest: string)
    requires Safe(m) && Sealed(m, done) && goal == done + Redact(m, rest) && Index(rest, m.begin) != -1
    ensures var head := done + rest[..Index(rest, m.begin)] + m.placeholder;
            Sealed(m, head) && goal == head + Remainder(m, rest)
  {
    Seals(m, done, rest, Index(rest, m.begin));
    Unfold(m, done, rest);
  }

  /** A block without an end: the loop stops with the right text. */
  lemma HalfwayCut(m: Marks, goal: string, v: string, done: string, rest: string, idx: int)
    requires Safe(m) && Halfway(m, goal, v, done, rest) && idx == Index(v, m.begin) && idx != -1
        && BlockEnd(m, v[idx..]) == -1
    ensures v[..idx] + m.placeholder == goal
  {
    HalfwayPlace(m, v, done, rest, idx);
    PartsNext(m, goal, done, rest);
    assert (v[..idx] + m.placeholder) + "" == v[..idx] + m.placeholder;
  }

  /** A whole block: rewriting it keeps the loop halfway, with less left to do. */
  lemma HalfwayNext(m: Marks, goal: string, v: string, done: string, rest: string, idx: int, head: string, tail: string)
    requires Safe(m) && Halfway(m, goal, v, done, rest) && idx == Index(v, m.begin) && idx != -1
    requires BlockEnd(m, v[idx..]) != -1 && head == v[..idx] + m.placeholder && tail == v[idx + BlockEnd(m, v[idx..])..]
    ensures Halfway(m, goal, head + tail, head, tail)
  {
    HalfwayPlace(m, v, done, rest, idx);
    PartsHalfway(m, goal, done, rest, Index(rest, m.begin), BlockEnd(m, v[idx..]), head, tail);
  }

  lemma GoalMoves(m: Marks, goal: string, done: string, rest: string, at: int, n: int)
    requires goal == done + Redact(m, rest) && at == Index(rest, m.begin) && at != -1
    requires n == BlockEnd(m, rest[at..]) && n != -1
    ensures goal == (done + rest[..at] + m.placeholder) + Redact(m, rest[at + n..])
  {
    Unfold(m, done, rest);
  }

  lemma PartsHalfway(m: Marks, goal: string, done: string, rest: string, at: int, n: int, head: string, tail: string)
    requires Safe(m) && Halfway(m, goal, done + rest, done, rest) && at == Index(rest, m.begin) && at != -1
    requires n == BlockEnd(m, rest[at..]) && n != -1 && head == done + rest[..at] + m.placeholder
        && tail == rest[at + n..]
    ensures Halfway(m, goal, head + tail, head, tail)
  {
    assert goal == head + Redact(m, tail) by { GoalMoves(m, goal, done, rest, at, n); }
    assert Sealed(m, head) by { Seals(m, done, rest, at); }
  }

  /** `Sanitizer.SanitizeString`: rewrites the whole text again and again, searching from its
      start each time. */
  method SanitizeString(m: Marks, text: string) returns (r: string)
    requires Safe(m)
    ensures r == Redact(m, text)
  {
    var v := text;
    ghost var goal, done, rest := Redact(m, text), "", text;
    HalfwayStart(m, text);
    while true
      invariant Halfway(m, goal, v, done, rest)
      decreases |v|
    {
      var idx := Index(v, m.begin);
      if idx == -1 {
        HalfwayDone(m, goal, v, done, rest);
        return v;
      }
      var end := Index(v[idx..], m.end);
      if end == -1 {
        HalfwayCut(m, goal, v, done, rest, idx);
        return v[..idx] + m.placeholder;
      }
      var relEnd := idx + end;
      assert v[relEnd..] == v[idx..][end..];
      var nl := Index(v[relEnd..], "\n");
      if nl == -1 {
        HalfwayCut(m, goal, v, done, rest, idx);
        return v[..idx] + m.placeholder;
      }
      assert BlockEnd(m, v[idx..]) == end + nl + 1;
      RewriteShrinks(m, v, idx);
      ghost var head, tail := v[..idx] + m.placeholder, v[relEnd + nl + 1..];
      HalfwayNext(m, goal, v, done, rest, idx, head, tail);
      v := v[..idx] + m.placeholder + v[relEnd + nl + 1..];
      done, rest := head, tail;
    }
  }

  /** `sanitizeTLSError` computes the same text, and keeps "no error" as no error. */
  method SanitizeTLSError(m: Marks, err: Option<string>) returns (r: Option<string>)
    requires Safe(m)
    ensures r == if err.None? then None else Some(Redact(m, err.value))
  {
    if err.None? { return None; }
    var msg := err.value;
    ghost var goal, done, rest := Redact(m, msg), "", msg;
    HalfwayStart(m, msg);
    while true
      invariant Halfway(m, goal, msg, done, rest)
      decreases |msg|
    {
      var idx := Index(msg, m.begin);
      if idx == -1 {
        HalfwayDone(m, goal, msg, done, rest);
        break;
      }
      var end := Index(msg[idx..], m.end);
      if end == -1 {
        HalfwayCut(m, goal, msg, done, rest, idx);
        msg := msg[..idx] + m.placeholder;
        break;
      }
      var relEnd := idx + end;
      assert msg[relEnd..] == msg[idx..][end..];
      var nl := Index(msg[relEnd..], "\n");
      if nl == -1 {
        HalfwayCut(m, goal, msg, done, rest, idx);
        msg := msg[..idx] + m.placeholder;
        break;
      }
      assert BlockEnd(m, msg[idx..]) == end + nl + 1;
      RewriteShrinks(m, msg, idx);
      ghost var head, tail := msg[..idx] + m.placeholder, msg[relEnd + nl + 1..];
      HalfwayNext(m, goal, msg, done, rest, idx, head, tail);
      msg := msg[..idx] + m.placeholder + msg[relEnd + nl + 1..];
      done, rest := head, tail;
    }
    return Some(msg);
  }
}
