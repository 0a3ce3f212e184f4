/** The rotating audit log (internal/audit/jsonl.go:81-125): what stays on disk after any run of
writes, with any pattern of failing system calls. */
module Rotation {

  /** An encoded event: its bytes up to and including the newline. */
  type Line = string

  /** File 0 is `<path>`, file k is `<path>.k`. */
  type Files = map<nat, seq<Line>>

  datatype Settings = Settings(maxSizeBytes: int, maxFiles: int)

  /** How the system calls of one `Write` turn out; `renameOk(i)` is about moving file i. A rename
      whose source is missing fails in any case. */
  datatype Faults = Faults(marshalOk: bool, writeOk: bool, statOk: bool, closeOk: bool, renameOk: nat -> bool,
                           openOk: bool)

  /** `failed` is the write error that a json.Encoder keeps and answers every later Encode with. */
  datatype Log = Log(files: Files, open: bool, failed: bool)

  function Slots(c: Settings): (n: nat)
    ensures n >= 1
  {
    if c.maxFiles <= 0 then 5 else c.maxFiles
  }

  function File(files: Files, i: nat): (lines: seq<Line>) {
    if i in files then files[i] else []
  }

  function Bytes(lines: seq<Line>): (n: nat) {
    if lines == [] then 0 else Bytes(lines[..|lines| - 1]) + |lines[|lines| - 1]|
  }

  // ----- one write

  function Rename(files: Files, i: nat, ok: bool): (r: Files) {
    if i in files && ok then (files - {i})[i + 1 := files[i]] else files
  }

  /** Move files i, i-1, ..., 0 one number up, in that order. */
  function Shift(files: Files, i: nat, ok: nat -> bool): (r: Files)
    decreases i
  {
    var moved := Rename(files, i, ok(i));
    if i == 0 then moved else Shift(moved, i - 1, ok)
  }

  function Rotate(c: Settings, s: Log, f: Faults): (r: Log)
    requires s.open
  {
    if !f.closeOk then s.(open := false)
    else
      var moved := Shift(s.files, Slots(c) - 1, f.renameOk);
      if f.openOk then Log(moved[0 := File(moved, 0)], true, false) else s.(files := moved, open := false)
  }

  /** The handle is open and its encoder has not failed. */
  predicate Live(s: Log) {
    s.open && !s.failed
  }

  predicate Accepts(s: Log, f: Faults) {
    Live(s) && f.marshalOk && f.writeOk
  }

  predicate Rotates(c: Settings, lines: seq<Line>, f: Faults) {
    c.maxSizeBytes > 0 && f.statOk && Bytes(lines) > c.maxSizeBytes
  }

  function Append(s: Log, line: Line): (r: Log) {
    s.(files := s.files[0 := File(s.files, 0) + [line]])
  }

  function Written(c: Settings, s: Log, line: Line, f: Faults): (r: Log) {
    if s.failed || !f.marshalOk then s
    else if !s.open || !f.writeOk then s.(failed := true)
    else
      var t := Append(s, line);
      if Rotates(c, File(t.files, 0), f) then Rotate(c, t, f) else t
  }

  class JSONLWriter {
    var files: Files
    var open: bool
    var failed: bool
    const settings: Settings

    ghost function State(): (s: Log)
      reads this
    {
      Log(files, open, failed)
    }

    /** `NewJSONLWriterWithRotation` on a disk that holds `disk`, when the file can be opened. */
    constructor (disk: Files, rc: Settings)
      ensures settings == rc && State() == Log(disk[0 := File(disk, 0)], true, false)
    {
      files, open, failed, settings := disk[0 := File(disk, 0)], true, false, rc;
    }

    method Write(line: Line, f: Faults) returns (ok: bool)
      modifies this
      ensures ok == old(Accepts(State(), f)) && State() == old(Written(settings, State(), line, f))
    {
      if failed || !f.marshalOk { return false; }
      if !open || !f.writeOk {
        failed := true;
        return false;
      }
      files := files[0 := File(files, 0) + [line]];
      if settings.maxSizeBytes > 0 {
        if f.statOk && Bytes(files[0]) > settings.maxSizeBytes {
          RotateLocked(f);
        }
      }
      return true;
    }

    method RotateLocked(f: Faults)
      requires open
      modifies this
      ensures State() == old(Rotate(settings, State(), f))
    {
      if !f.closeOk {
        open := false;
        return;
      }
      open := false;
      var max := settings.maxFiles;
      if max <= 0 { max := 5; }
      ghost var before := files;
      var i: int := max - 1;
      while i >= 1
        invariant 0 <= i <= max - 1
        invariant Shift(before, max - 1, f.renameOk) == Shift(files, i, f.renameOk)
        invariant !open && failed == old(failed)
      {
        files := Rename(files, i, f.renameOk(i));
        i := i - 1;
      }
      files := Rename(files, 0, f.renameOk(0));
      if !f.openOk { return; }
      files := files[0 := File(files, 0)];
      open, failed := true, false;
    }
  }

  // ----- runs

  datatype Call = Call(line: Line, faults: Faults)

  function Run(c: Settings, s: Log, calls: seq<Call>): (r: Log)
    decreases |calls|
  {
    if calls == [] then s
    else
      var last := calls[|calls| - 1];
      Written(c, Run(c, s, calls[..|calls| - 1]), last.line, last.faults)
  }

  /** The lines whose `Write` returned no error, in order. */
  function Accepted(c: Settings, s: Log, calls: seq<Call>): (lines: seq<Line>)
    decreases |calls|
  {
    if calls == [] then []
    else
      var last := calls[|calls| - 1];
      var before := calls[..|calls| - 1];
      Accepted(c, s, before) + Taken(Run(c, s, before), last)
  }

  /** Files k, k-1, ..., 0 read one after the other: oldest line first. */
  function Archive(files: Files, k: nat): (lines: seq<Line>) {
    if k == 0 then File(files, 0) else File(files, k) + Archive(files, k - 1)
  }

  /** Everything there ever was: what the files held at the start, then what was accepted. */
  function History(c: Settings, s: Log, calls: seq<Call>): (lines: seq<Line>) {
    Kept(c, s) + Accepted(c, s, calls)
  }

  lemma HistoryGrows(c: Settings, s: Log, calls: seq<Call>)
    requires calls != []
    ensures var n := |calls| - 1;
            History(c, s, calls) == History(c, s, calls[..n]) + Taken(Run(c, s, calls[..n]), calls[n])
  {
  }

  function Taken(s: Log, call: Call): (lines: seq<Line>) {
    if Accepts(s, call.faults) then [call.line] else []
  }

  function Kept(c: Settings, s: Log): (lines: seq<Line>) {
    Archive(s.files, Slots(c))
  }

  /** No rename fails except for a missing source. */
  ghost predicate RenamesWork(calls: seq<Call>) {
    forall j | 0 <= j < |calls| :: AlwaysOk(calls[j].faults)
  }

  ghost predicate AlwaysOk(f: Faults) {
    forall i: nat :: f.renameOk(i)
  }

  // ----- what a shift does to the files

  lemma {:induction false} ShiftAbove(files: Files, i: nat, ok: nat -> bool, k: nat)
    requires k > i + 1
    ensures k in Shift(files, i, ok) <==> k in files
    ensures File(Shift(files, i, ok), k) == File(files, k)
    decreases i
  {
    if i > 0 { ShiftAbove(Rename(files, i, ok(i)), i - 1, ok, k); }
  }

  lemma {:induction false} ArchiveSame(a: Files, b: Files, k: nat)
    requires forall i: nat | i <= k :: File(a, i) == File(b, i)
    ensures Archive(a, k) == Archive(b, k)
    decreases k
  {
    if k > 0 { ArchiveSame(a, b, k - 1); }
  }

  /** With a free slot above, a shift moves whole files and loses nothing. */
  lemma {:induction false} ShiftLosesNothing(files: Files, i: nat, ok: nat -> bool)
    requires i + 1 !in files && forall j: nat :: ok(j)
    ensures Archive(Shift(files, i, ok), i + 1) == Archive(files, i)
    decreases i
  {
    var moved := Rename(files, i, true);
    if i > 0 {
      ShiftLosesNothing(moved, i - 1, ok);
      ShiftAbove(moved, i - 1, ok, i + 1);
      ArchiveSame(moved, files, i - 1);
    }
  }

  /** The oldest file is the only one a working rotation overwrites, and only when the slot below
      it is taken. */
  lemma ShiftDropsOldest(files: Files, n: nat, ok: nat -> bool)
    requires n >= 1 && forall j: nat :: ok(j)
    ensures Archive(Shift(files, n - 1, ok), n)
        == (if n - 1 in files then [] else File(files, n)) + Archive(files, n - 1)
  {
    if n - 1 in files {
      ShiftOverwrites(files, n, ok);
    } else if n >= 2 {
      ShiftLosesNothing(files, n - 2, ok);
      ShiftAbove(files, n - 2, ok, n);
    } else {
      assert Archive(files, 1) == File(files, 1) + File(files, 0);
    }
  }

  lemma ShiftOverwrites(files: Files, n: nat, ok: nat -> bool)
    requires n >= 1 && n - 1 in files && forall j: nat :: ok(j)
    ensures Archive(Shift(files, n - 1, ok), n) == [] + Archive(files, n - 1)
  {
    var without := files - {n};
    assert Rename(files, n - 1, true) == Rename(without, n - 1, true);
    assert Shift(files, n - 1, ok) == Shift(without, n - 1, ok);
    ShiftLosesNothing(without, n - 1, ok);
    ArchiveSame(without, files, n - 1);
  }

  // ----- suffixes

  ghost predicate Suffix(a: seq<Line>, b: seq<Line>) {
    |a| <= |b| && b[|b| - |a|..] == a
  }

  lemma SuffixExtends(a: seq<Line>, b: seq<Line>, x: seq<Line>)
    requires Suffix(a, b)
    ensures Suffix(a + x, b + x)
  {
  }

  lemma SuffixDrops(x: seq<Line>, a: seq<Line>, b: seq<Line>)
    requires Suffix(x + a, b)
    ensures Suffix(a, b)
  {
  }

  lemma {:induction false} ArchiveAppend(files: Files, line: Line, k: nat)
    ensures Archive(files[0 := File(files, 0) + [line]], k) == Archive(files, k) + [line]
    decreases k
  {
    if k > 0 { ArchiveAppend(files, line, k - 1); }
  }

  /** What reopening adds to the disk: at most an empty current file. */
  lemma ReopenKeeps(files: Files, k: nat)
    ensures Archive(files[0 := File(files, 0)], k) == Archive(files, k)
  {
    ArchiveSame(files[0 := File(files, 0)], files, k);
  }

  lemma RotateSuffix(c: Settings, s: Log, f: Faults, all: seq<Line>)
    requires s.open && AlwaysOk(f) && Suffix(Kept(c, s), all)
    ensures Suffix(Kept(c, Rotate(c, s, f)), all)
  {
    var n := Slots(c);
    if f.closeOk {
      var moved := Shift(s.files, n - 1, f.renameOk);
      ShiftDropsOldest(s.files, n, f.renameOk);
      ReopenKeeps(moved, n);
      if n - 1 in s.files {
        SuffixDrops(File(s.files, n), Archive(s.files, n - 1), all);
        assert [] + Archive(s.files, n - 1) == Archive(s.files, n - 1);
      }
    }
  }

  lemma WriteSuffix(c: Settings, t: Log, call: Call, all: seq<Line>)
    requires AlwaysOk(call.faults) && Suffix(Kept(c, t), all)
    ensures Suffix(Kept(c, Written(c, t, call.line, call.faults)), all + Taken(t, call))
  {
    if Accepts(t, call.faults) {
      var u := Append(t, call.line);
      ArchiveAppend(t.files, call.line, Slots(c));
      SuffixExtends(Kept(c, t), all, [call.line]);
      if Rotates(c, File(u.files, 0), call.faults) { RotateSuffix(c, u, call.faults, all + [call.line]); }
    } else {
      assert all + [] == all;
    }
  }

  /** When renames fail only for a missing source, what is kept is the newest part of everything
      on disk at the start and everything accepted since. */
  lemma {:induction false} KeepsSuffix(c: Settings, s: Log, calls: seq<Call>)
    requires RenamesWork(calls)
    ensures Suffix(Kept(c, Run(c, s, calls)), History(c, s, calls))
    decreases |calls|
  {
    if calls == [] {
      assert Kept(c, s) + [] == Kept(c, s);
    } else {
      var n := |calls| - 1;
      KeepsSuffix(c, s, calls[..n]);
      HistoryGrows(c, s, calls);
      assert AlwaysOk(calls[n].faults);
      WriteSuffix(c, Run(c, s, calls[..n]), calls[n], History(c, s, calls[..n]));
    }
  }

  // ----- subsequences

  ghost predicate Subseq(a: seq<Line>, b: seq<Line>)
    decreases |b|
  {
    a == [] || (b != [] && ((a[0] == b[0] && Subseq(a[1..], b[1..])) || Subseq(a, b[1..])))
  }

  lemma {:induction false} SubseqSelf(a: seq<Line>)
    ensures Subseq(a, a)
    decreases |a|
  {
    if a != [] { SubseqSelf(a[1..]); }
  }

  lemma {:induction false} SubseqAppend(a: seq<Line>, b: seq<Line>, x: seq<Line>, y: seq<Line>)
    requires Subseq(a, b) && Subseq(x, y)
    ensures Subseq(a + x, b + y)
    decreases |b|
  {
    if b == [] {
      assert a + x == x && b + y == y;
    } else {
      assert (b + y)[1..] == b[1..] + y;
      if a == [] {
        SubseqAppend([], b[1..], x, y);
        assert [] + x == x;
        SubseqLater(x, b[1..] + y, b + y);
      } else if a[0] == b[0] && Subseq(a[1..], b[1..]) {
        SubseqAppend(a[1..], b[1..], x, y);
        assert (a + x)[1..] == a[1..] + x;
      } else {
        SubseqAppend(a, b[1..], x, y);
        SubseqLater(a + x, b[1..] + y, b + y);
      }
    }
  }

  lemma SubseqLater(a: seq<Line>, tail: seq<Line>, b: seq<Line>)
    requires b != [] && tail == b[1..] && Subseq(a, tail)
    ensures Subseq(a, b)
  {
  }

  lemma {:induction false} SubseqTransitive(a: seq<Line>, b: seq<Line>, d: seq<Line>)
    requires Subseq(a, b) && Subseq(b, d)
    ensures Subseq(a, d)
    decreases |d|
  {
    if a != [] {
      if b[0] == d[0] && Subseq(b[1..], d[1..]) {
        if a[0] == b[0] && Subseq(a[1..], b[1..]) {
          SubseqTransitive(a[1..], b[1..], d[1..]);
        } else {
          SubseqTransitive(a, b[1..], d[1..]);
        }
      } else {
        SubseqTransitive(a, b, d[1..]);
      }
    }
  }

  /** One rename leaves a subsequence: it loses at most the file it overwrites. */
  lemma RenameSubseq(files: Files, i: nat, ok: bool)
    ensures Subseq(Archive(Rename(files, i, ok), i + 1), Archive(files, i + 1))
  {
    var r := Rename(files, i, ok);
    if i in files && ok {
      assert Archive(r, i + 1) == [] + Archive(files, i) by {
        if i > 0 { ArchiveSame(r, files, i - 1); }
      }
      SubseqSelf(Archive(files, i));
      SubseqAppend([], File(files, i + 1), Archive(files, i), Archive(files, i));
    } else {
      SubseqSelf(Archive(files, i + 1));
    }
  }

  lemma {:induction false} ShiftSubseq(files: Files, i: nat, ok: nat -> bool)
    ensures Subseq(Archive(Shift(files, i, ok), i + 1), Archive(files, i + 1))
    decreases i
  {
    var moved := Rename(files, i, ok(i));
    RenameSubseq(files, i, ok(i));
    if i > 0 {
      ShiftSubseq(moved, i - 1, ok);
      var shifted := Shift(moved, i - 1, ok);
      ShiftAbove(moved, i - 1, ok, i + 1);
      SubseqSelf(File(moved, i + 1));
      SubseqAppend(File(moved, i + 1), File(moved, i + 1), Archive(shifted, i), Archive(moved, i));
      SubseqTransitive(Archive(shifted, i + 1), Archive(moved, i + 1), Archive(files, i + 1));
    }
  }

  lemma RotateSubseq(c: Settings, s: Log, f: Faults)
    requires s.open
    ensures Subseq(Kept(c, Rotate(c, s, f)), Kept(c, s))
  {
    var n := Slots(c);
    if f.closeOk {
      ShiftSubseq(s.files, n - 1, f.renameOk);
      ReopenKeeps(Shift(s.files, n - 1, f.renameOk), n);
    } else {
      SubseqSelf(Kept(c, s));
    }
  }

  lemma WriteSubseq(c: Settings, t: Log, call: Call, all: seq<Line>)
    requires Subseq(Kept(c, t), all)
    ensures Subseq(Kept(c, Written(c, t, call.line, call.faults)), all + Taken(t, call))
  {
    if Accepts(t, call.faults) {
      var u := Append(t, call.line);
      ArchiveAppend(t.files, call.line, Slots(c));
      SubseqSelf([call.line]);
      SubseqAppend(Kept(c, t), all, [call.line], [call.line]);
      if Rotates(c, File(u.files, 0), call.faults) {
        RotateSubseq(c, u, call.faults);
        SubseqTransitive(Kept(c, Rotate(c, u, call.faults)), Kept(c, u), all + [call.line]);
      }
    } else {
      assert all + [] == all;
    }
  }

  /** Whatever fails, what is kept are whole lines, in order, none of them twice. */
  lemma {:induction false} KeepsSubsequence(c: Settings, s: Log, calls: seq<Call>)
    ensures Subseq(Kept(c, Run(c, s, calls)), History(c, s, calls))
    decreases |calls|
  {
    if calls == [] {
      assert Kept(c, s) + [] == Kept(c, s);
      SubseqSelf(Kept(c, s));
    } else {
      var n := |calls| - 1;
      KeepsSubsequence(c, s, calls[..n]);
      HistoryGrows(c, s, calls);
      WriteSubseq(c, Run(c, s, calls[..n]), calls[n], History(c, s, calls[..n]));
    }
  }

  // ----- without rotation

  /** Without a size limit a write only appends, and only what it accepts. */
  lemma UnlimitedWrite(c: Settings, t: Log, call: Call)
    requires c.maxSizeBytes <= 0
    ensures var files := Written(c, t, call.line, call.faults).files;
            && File(files, 0) == File(t.files, 0) + Taken(t, call)
            && OnlyCurrent(t.files, files)
            && Archive(files, Slots(c)) == Archive(t.files, Slots(c)) + Taken(t, call)
  {
    ArchiveAppend(t.files, call.line, Slots(c));
    if !Accepts(t, call.faults) {
      assert Written(c, t, call.line, call.faults).files == t.files;
      assert Archive(t.files, Slots(c)) + [] == Archive(t.files, Slots(c));
    }
  }

  ghost predicate OnlyCurrent(a: Files, b: Files) {
    forall k: nat | k > 0 :: SameFile(a, b, k)
  }

  lemma OnlyCurrentTransitive(a: Files, b: Files, d: Files)
    requires OnlyCurrent(a, b) && OnlyCurrent(b, d)
    ensures OnlyCurrent(a, d)
  {
    forall k: nat | k > 0 ensures SameFile(a, d, k) { assert SameFile(a, b, k) && SameFile(b, d, k); }
  }

  lemma {:induction false} NoLimitAppends(c: Settings, s: Log, calls: seq<Call>)
    requires c.maxSizeBytes <= 0
    ensures File(Run(c, s, calls).files, 0) == File(s.files, 0) + Accepted(c, s, calls)
    ensures Kept(c, Run(c, s, calls)) == History(c, s, calls)
    decreases |calls|
  {
    if calls == [] {
      assert Kept(c, s) + [] == Kept(c, s);
    } else {
      var n := |calls| - 1;
      NoLimitAppends(c, s, calls[..n]);
      HistoryGrows(c, s, calls);
      UnlimitedWrite(c, Run(c, s, calls[..n]), calls[n]);
    }
  }

  lemma {:induction false} NoLimitMovesNothing(c: Settings, s: Log, calls: seq<Call>)
    requires c.maxSizeBytes <= 0
    ensures OnlyCurrent(s.files, Run(c, s, calls).files)
    decreases |calls|
  {
    if calls != [] {
      var n := |calls| - 1;
      var t := Run(c, s, calls[..n]);
      NoLimitMovesNothing(c, s, calls[..n]);
      UnlimitedWrite(c, t, calls[n]);
      OnlyCurrentTransitive(s.files, t.files, Run(c, s, calls).files);
    }
  }

  /** With no size limit nothing is ever lost or moved: the current file grows by what is accepted. */
  lemma NoLimitKeepsAll(c: Settings, s: Log, calls: seq<Call>)
    requires c.maxSizeBytes <= 0
    ensures File(Run(c, s, calls).files, 0) == File(s.files, 0) + Accepted(c, s, calls)
    ensures OnlyCurrent(s.files, Run(c, s, calls).files) && Kept(c, Run(c, s, calls)) == History(c, s, calls)
  {
    NoLimitAppends(c, s, calls);
    NoLimitMovesNothing(c, s, calls);
  }

  // ----- the number of files

  ghost predicate SameFile(a: Files, b: Files, k: nat) {
    (k in a <==> k in b) && File(a, k) == File(b, k)
  }

  lemma WriteAbove(c: Settings, t: Log, call: Call, k: nat)
    requires k > Slots(c)
    ensures SameFile(t.files, Written(c, t, call.line, call.faults).files, k)
  {
    ShiftAbove(Append(t, call.line).files, Slots(c) - 1, call.faults.renameOk, k);
  }

  /** No run creates a file numbered above the limit, and none it finds there changes. */
  lemma {:induction false} NoFileAboveLimit(c: Settings, s: Log, calls: seq<Call>, k: nat)
    requires k > if c.maxFiles > 0 then c.maxFiles else 5
    ensures SameFile(s.files, Run(c, s, calls).files, k)
    decreases |calls|
  {
    if calls != [] {
      var n := |calls| - 1;
      NoFileAboveLimit(c, s, calls[..n], k);
      WriteAbove(c, Run(c, s, calls[..n]), calls[n], k);
    }
  }

  // ----- when the log stops for good

  /** This call leaves the log unable to accept anything: its write fails, or its rotation does
      not close the old file or does not open the new one. */
  predicate Breaks(c: Settings, s: Log, call: Call) {
    var f := call.faults;
    f.marshalOk && (!f.writeOk || (Rotates(c, File(Append(s, call.line).files, 0), f) && !(f.closeOk && f.openOk)))
  }

  ghost predicate BreaksAt(c: Settings, s: Log, calls: seq<Call>, i: nat)
    requires i < |calls|
  {
    Breaks(c, Run(c, s, calls[..i]), calls[i])
  }

  /** Once the log is not live, nothing is accepted and no file changes any more. */
  lemma {:induction false} ClosedForGood(c: Settings, s: Log, calls: seq<Call>)
    requires !Live(s)
    ensures !Live(Run(c, s, calls)) && Run(c, s, calls).files == s.files && Accepted(c, s, calls) == []
    decreases |calls|
  {
    if calls != [] { ClosedForGood(c, s, calls[..|calls| - 1]); }
  }

  lemma {:induction false} LiveUntilBroken(c: Settings, s: Log, calls: seq<Call>)
    requires Live(s)
    ensures Live(Run(c, s, calls)) <==> forall i | 0 <= i < |calls| :: !BreaksAt(c, s, calls, i)
    decreases |calls|
  {
    if calls != [] {
      var n := |calls| - 1;
      var before := calls[..n];
      LiveUntilBroken(c, s, before);
      forall i | 0 <= i < n ensures BreaksAt(c, s, calls, i) <==> BreaksAt(c, s, before, i) {
        assert before[..i] == calls[..i];
      }
      var t := Run(c, s, before);
      assert Live(Run(c, s, calls)) <==> Live(t) && !Breaks(c, t, calls[n]);
      assert BreaksAt(c, s, calls, n) <==> Breaks(c, t, calls[n]);
    }
  }

  /** In every run from an open log, a call is accepted exactly when its event can be encoded and
      written and no earlier call broke the log: failed renames and stats never do. */
  lemma AcceptedExactly(c: Settings, s: Log, calls: seq<Call>, j: nat)
    requires Live(s) && j < |calls|
    ensures Accepts(Run(c, s, calls[..j]), calls[j].faults) <==>
              && calls[j].faults.marshalOk && calls[j].faults.writeOk
              && forall i | 0 <= i < j :: !BreaksAt(c, s, calls, i)
  {
    var before := calls[..j];
    LiveUntilBroken(c, s, before);
    forall i | 0 <= i < j ensures BreaksAt(c, s, calls, i) <==> BreaksAt(c, s, before, i) {
      assert before[..i] == calls[..i];
    }
  }

  // ----- sizes

  lemma {:induction false} BytesAppend(a: seq<Line>, b: seq<Line>)
    ensures Bytes(a + b) == Bytes(a) + Bytes(b)
    decreases |b|
  {
    if b == [] {
      assert a + b == a;
    } else {
      assert (a + b)[..|a + b| - 1] == a + b[..|b| - 1];
      BytesAppend(a, b[..|b| - 1]);
    }
  }

  /** Where each file goes in a working rotation. */
  lemma {:induction false} ShiftMoves(files: Files, i: nat, ok: nat -> bool, k: nat)
    requires k <= i + 1 && forall j: nat :: ok(j)
    ensures var r := Shift(files, i, ok);
            if k == 0 then k !in r
            else if k - 1 in files then k in r && r[k] == files[k - 1]
            else if k == i + 1 && k in files then k in r && r[k] == files[k]
            else k !in r
    decreases i
  {
    if i > 0 {
      var moved := Rename(files, i, true);
      if k == i + 1 { ShiftAbove(moved, i - 1, ok, k); } else { ShiftMoves(moved, i - 1, ok, k); }
    }
  }

  /** Files 1 to `h` are there, each larger than the limit, and the other slots are free. */
  ghost predicate Packed(c: Settings, files: Files, h: nat) {
    h <= Slots(c) && forall i: nat | 1 <= i <= Slots(c) ::
        (i in files <==> i <= h) && (i <= h ==> Bytes(files[i]) > c.maxSizeBytes)
  }

  lemma RotatePacks(c: Settings, s: Log, f: Faults, h: nat)
    requires s.open && AlwaysOk(f) && f.closeOk && Packed(c, s.files, h) && 0 in s.files
        && Bytes(s.files[0]) > c.maxSizeBytes
    ensures Packed(c, Rotate(c, s, f).files, if h < Slots(c) then h + 1 else h)
  {
    var n := Slots(c);
    var r := Rotate(c, s, f).files;
    var g := if h < n then h + 1 else h;
    forall i: nat | 1 <= i <= n ensures (i in r <==> i <= g) && (i <= g ==> Bytes(r[i]) > c.maxSizeBytes) {
      ShiftMoves(s.files, n - 1, f.renameOk, i);
    }
  }

  lemma RotateKeepsAll(c: Settings, s: Log, f: Faults, h: nat)
    requires s.open && AlwaysOk(f) && f.closeOk && Packed(c, s.files, h) && h < Slots(c)
    ensures Kept(c, Rotate(c, s, f)) == Kept(c, s)
  {
    var n := Slots(c);
    ShiftDropsOldest(s.files, n, f.renameOk);
    ReopenKeeps(Shift(s.files, n - 1, f.renameOk), n);
    assert File(s.files, n) == [];
  }

  /** Either nothing is lost, or every slot is full. */
  ghost predicate Retains(c: Settings, s: Log, all: seq<Line>) {
    exists h: nat :: Packed(c, s.files, h) && (h < Slots(c) ==> Kept(c, s) == all)
  }

  lemma WriteRetains(c: Settings, t: Log, call: Call, all: seq<Line>)
    requires AlwaysOk(call.faults) && Retains(c, t, all)
    ensures Retains(c, Written(c, t, call.line, call.faults), all + Taken(t, call))
  {
    var h: nat :| Packed(c, t.files, h) && (h < Slots(c) ==> Kept(c, t) == all);
    if Accepts(t, call.faults) {
      var u := Append(t, call.line);
      ArchiveAppend(t.files, call.line, Slots(c));
      assert Packed(c, u.files, h);
      if Rotates(c, File(u.files, 0), call.faults) && call.faults.closeOk {
        RotatePacks(c, u, call.faults, h);
        if h < Slots(c) { RotateKeepsAll(c, u, call.faults, h); }
      }
    } else {
      assert all + [] == all;
    }
  }

  lemma {:induction false} PackedBytes(c: Settings, files: Files, k: nat)
    requires Packed(c, files, Slots(c)) && k <= Slots(c) && c.maxSizeBytes >= 0
    ensures Bytes(Archive(files, k)) >= k * (c.maxSizeBytes + 1)
    decreases k
  {
    if k > 0 {
      PackedBytes(c, files, k - 1);
      BytesAppend(File(files, k), Archive(files, k - 1));
      OneMore(k - 1, c.maxSizeBytes + 1);
    }
  }

  lemma {:induction false} RunRetains(c: Settings, s: Log, calls: seq<Call>)
    requires RenamesWork(calls) && s.files.Keys <= {0}
    ensures Retains(c, Run(c, s, calls), History(c, s, calls))
    decreases |calls|
  {
    if calls == [] {
      assert Packed(c, s.files, 0);
      assert Kept(c, s) + [] == Kept(c, s);
    } else {
      var n := |calls| - 1;
      RunRetains(c, s, calls[..n]);
      HistoryGrows(c, s, calls);
      assert AlwaysOk(calls[n].faults);
      WriteRetains(c, Run(c, s, calls[..n]), calls[n], History(c, s, calls[..n]));
    }
  }

  /** Starting without rotated files and with working renames, a line is lost only when what is
      kept fills every slot beyond the size limit. */
  lemma LossOnlyWhenFull(c: Settings, s: Log, calls: seq<Call>)
    requires RenamesWork(calls) && s.files.Keys <= {0} && c.maxSizeBytes >= 0
    ensures || Kept(c, Run(c, s, calls)) == History(c, s, calls)
            || Bytes(Kept(c, Run(c, s, calls))) >= (if c.maxFiles > 0 then c.maxFiles else 5) * (c.maxSizeBytes + 1)
  {
    RunRetains(c, s, calls);
    var t := Run(c, s, calls);
    var h: nat :| Packed(c, t.files, h) && (h < Slots(c) ==> Kept(c, t) == History(c, s, calls));
    if h == Slots(c) { PackedBytes(c, t.files, h); }
  }

  /** Every file is at most one line over the limit, and an open current file not even that. */
  ghost predicate Capped(c: Settings, longest: nat, s: Log) {
    && SmallFiles(c, longest, s.files)
    && (s.open ==> Bytes(File(s.files, 0)) <= c.maxSizeBytes)
  }

  ghost predicate Orderly(call: Call, longest: nat) {
    AlwaysOk(call.faults) && call.faults.statOk && |call.line| <= longest
  }

  ghost predicate SmallFiles(c: Settings, longest: nat, files: Files) {
    forall i: nat | i <= Slots(c) :: Small(c, longest, File(files, i))
  }

  ghost predicate Small(c: Settings, longest: nat, lines: seq<Line>) {
    Bytes(lines) <= c.maxSizeBytes + longest
  }

  /** Where file `i` of a shifted directory comes from, case by case. */
  lemma ShiftedFile(files: Files, n: nat, ok: nat -> bool, i: nat)
    requires n >= 1 && i <= n && forall j: nat :: ok(j)
    ensures var r := Shift(files, n - 1, ok);
            && (i == 0 ==> File(r, i) == [])
            && (i > 0 ==> File(r, i) == File(files, i - 1) || File(r, i) == File(files, i) || File(r, i) == [])
  {
    ShiftMoves(files, n - 1, ok, i);
    if i > 0 {
      if i - 1 in files {
        assert File(Shift(files, n - 1, ok), i) == File(files, i - 1);
      } else if i == n && n in files {
        assert File(Shift(files, n - 1, ok), i) == File(files, i);
      } else {
        assert File(Shift(files, n - 1, ok), i) == [];
      }
    }
  }

  lemma ShiftKeepsSmall(c: Settings, longest: nat, files: Files, ok: nat -> bool)
    requires c.maxSizeBytes > 0 && SmallFiles(c, longest, files) && forall j: nat :: ok(j)
    ensures SmallFiles(c, longest, Shift(files, Slots(c) - 1, ok)) && File(Shift(files, Slots(c) - 1, ok), 0) == []
  {
    var n := Slots(c);
    var r := Shift(files, n - 1, ok);
    ShiftedFile(files, n, ok, 0);
    assert Small(c, longest, []);
    forall i: nat | i <= n ensures Small(c, longest, File(r, i)) {
      ShiftedFile(files, n, ok, i);
      assert Small(c, longest, File(files, i));
      if i > 0 { assert Small(c, longest, File(files, i - 1)); }
    }
  }

  lemma ReopenSmall(c: Settings, longest: nat, files: Files)
    requires SmallFiles(c, longest, files)
    ensures SmallFiles(c, longest, files[0 := File(files, 0)])
  {
    var reopened := files[0 := File(files, 0)];
    forall i: nat | i <= Slots(c) ensures Small(c, longest, File(reopened, i)) {
      assert File(reopened, i) == File(files, i);
    }
  }

  lemma RotateCaps(c: Settings, longest: nat, s: Log, f: Faults)
    requires c.maxSizeBytes > 0 && s.open && AlwaysOk(f) && SmallFiles(c, longest, s.files)
    ensures Capped(c, longest, Rotate(c, s, f))
  {
    if f.closeOk {
      var moved := Shift(s.files, Slots(c) - 1, f.renameOk);
      ShiftKeepsSmall(c, longest, s.files, f.renameOk);
      ReopenSmall(c, longest, moved);
      assert Bytes(File(moved, 0)) == 0;
    }
  }

  lemma AppendSmall(c: Settings, longest: nat, t: Log, line: Line)
    requires Capped(c, longest, t) && t.open && |line| <= longest
    ensures SmallFiles(c, longest, Append(t, line).files)
  {
    var u := Append(t, line);
    BytesAppend(File(t.files, 0), [line]);
    assert Bytes([line]) == |line| by { assert [line][..0] == []; }
    forall i: nat | i <= Slots(c) ensures Small(c, longest, File(u.files, i)) {
      if i > 0 { assert File(u.files, i) == File(t.files, i); }
    }
  }

  lemma WriteCaps(c: Settings, longest: nat, t: Log, call: Call)
    requires c.maxSizeBytes > 0 && Capped(c, longest, t) && Orderly(call, longest)
    ensures Capped(c, longest, Written(c, t, call.line, call.faults))
  {
    if Accepts(t, call.faults) {
      var u := Append(t, call.line);
      AppendSmall(c, longest, t, call.line);
      if Rotates(c, File(u.files, 0), call.faults) { RotateCaps(c, longest, u, call.faults); }
    }
  }

  lemma OneMore(k: nat, x: int)
    ensures (k + 1) * x == k * x + x
  {
  }

  lemma {:induction false} CappedBytes(c: Settings, longest: nat, s: Log, k: nat)
    requires Capped(c, longest, s) && k <= Slots(c)
    ensures Bytes(Archive(s.files, k)) <= (k + 1) * (c.maxSizeBytes + longest)
    decreases k
  {
    OneMore(k, c.maxSizeBytes + longest);
    assert Small(c, longest, File(s.files, 0));
    if k > 0 {
      CappedBytes(c, longest, s, k - 1);
      assert Small(c, longest, File(s.files, k));
      BytesAppend(File(s.files, k), Archive(s.files, k - 1));
    }
  }

  /** Rotation caps the disk footprint. */
  lemma {:induction false} FootprintCapped(c: Settings, longest: nat, s: Log, calls: seq<Call>)
    requires c.maxSizeBytes > 0 && Capped(c, longest, s) && forall j | 0 <= j < |calls| :: Orderly(calls[j], longest)
    ensures Capped(c, longest, Run(c, s, calls))
    ensures Bytes(Kept(c, Run(c, s, calls))) <= (Slots(c) + 1) * (c.maxSizeBytes + longest)
    decreases |calls|
  {
    if calls != [] {
      var n := |calls| - 1;
      FootprintCapped(c, longest, s, calls[..n]);
      WriteCaps(c, longest, Run(c, s, calls[..n]), calls[n]);
    }
    CappedBytes(c, longest, Run(c, s, calls), Slots(c));
  }
}
