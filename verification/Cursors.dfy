/** The "offset:N" paging cursor (internal/velociraptor/table.go:111-125 and its second reader,
internal/mcpserver/tools_flows.go:376-388). */
module Cursors {
  import opened Text

  const MAX_INT := 0x7fff_ffff_ffff_ffff

  const PREFIX := "offset:"

  predicate HasPrefix(s: string, pre: string) {
    |pre| <= |s| && s[..|pre|] == pre
  }

  /** `strconv.Atoi` with a 64-bit int: an optional sign, then digits only, within range. */
  function Atoi(s: string): (n: Option<int>)
    ensures n.Some? ==> -MAX_INT - 1 <= n.value <= MAX_INT
  {
    var neg := s != "" && s[0] == '-';
    var digits := if s != "" && (s[0] == '-' || s[0] == '+') then s[1..] else s;
    if digits == "" || !AllDigits(digits) then None
    else
      var v: int := if neg then -(Value(digits) as int) else Value(digits);
      if -MAX_INT - 1 <= v <= MAX_INT then Some(v) else None
  }

  /** `parseOffsetCursor`: anything malformed or negative starts from the beginning. */
  function ParseOffset(cursor: string): (n: nat)
    ensures n <= MAX_INT
  {
    if !HasPrefix(cursor, PREFIX) then 0
    else
      var n := Atoi(cursor[|PREFIX|..]);
      if n.None? || n.value < 0 then 0 else n.value
  }

  /** `offsetCursor`. */
  function OffsetCursor(n: nat): (s: string) {
    PREFIX + Digits(n)
  }

  /** How `nextOffsetCursor` reads the incoming cursor. */
  function HandlerOffset(cursor: string): (n: nat) {
    if HasPrefix(cursor, PREFIX) then
      var parsed := Atoi(cursor[|PREFIX|..]);
      if parsed.Some? && parsed.value > 0 then parsed.value else 0
    else 0
  }

  /** `nextOffsetCursor`. */
  function NextOffsetCursor(cursor: string, returned: nat, truncated: bool): (s: string) {
    if !truncated || returned == 0 then "" else OffsetCursor(HandlerOffset(cursor) + returned)
  }

  /** The two readers give the same offset on every string. */
  lemma ReadersAgree(cursor: string)
    ensures HandlerOffset(cursor) == ParseOffset(cursor)
  {
  }

  /** A printed offset is read back as it was, for every non-negative machine integer. */
  lemma CursorRoundTrip(n: nat)
    requires n <= MAX_INT
    ensures ParseOffset(OffsetCursor(n)) == n && OffsetCursor(n) != ""
  {
  }

  /** Beyond the machine range a printed offset is read as the beginning. */
  lemma CursorOutOfRange(n: nat)
    requires n > MAX_INT
    ensures ParseOffset(OffsetCursor(n)) == 0
  {
  }

  /** Printing gives back a cursor exactly when it is the printed form of its own offset; the
      readers also accept a sign and leading zeros. */
  lemma CursorCanonical(cursor: string)
    ensures OffsetCursor(ParseOffset(cursor)) == cursor <==> exists n: nat :: n <= MAX_INT && OffsetCursor(n) == cursor
  {
  }

  /** A cursor spells the offset `n`: the prefix, at most a plus sign, and digits of that value. */
  ghost predicate Spells(cursor: string, digits: string, n: nat) {
    && digits != "" && AllDigits(digits) && Value(digits) == n <= MAX_INT
    && (cursor == PREFIX + digits || cursor == PREFIX + "+" + digits)
  }

  lemma SpelledIsRead(cursor: string, digits: string, n: nat)
    requires Spells(cursor, digits, n)
    ensures ParseOffset(cursor) == n
  {
    var rest := cursor[|PREFIX|..];
    assert cursor[..|PREFIX|] == PREFIX;
    assert IsDigit(digits[0]);
    if cursor == PREFIX + digits {
      assert rest == digits;
    } else {
      assert rest == "+" + digits && rest[1..] == digits;
    }
  }

  lemma ReadIsSpelled(cursor: string) returns (digits: string)
    requires ParseOffset(cursor) > 0
    ensures Spells(cursor, digits, ParseOffset(cursor))
  {
    var rest := cursor[|PREFIX|..];
    assert cursor == PREFIX + rest;
    if rest[0] == '+' {
      digits := rest[1..];
      assert rest == "+" + digits;
      assert PREFIX + "+" + digits == PREFIX + rest;
    } else {
      digits := rest;
    }
  }

  /** Exactly these cursors are read as a positive offset; all others start from the beginning. */
  lemma ParseExactly(cursor: string, n: nat)
    requires n > 0
    ensures ParseOffset(cursor) == n <==> exists digits :: Spells(cursor, digits, n)
  {
    if ParseOffset(cursor) == n { var digits := ReadIsSpelled(cursor); }
    if digits :| Spells(cursor, digits, n) { SpelledIsRead(cursor, digits, n); }
  }
}
