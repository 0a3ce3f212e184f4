/** Byte strings, searching and decimal numerals.

A Go string is a Dafny `string` with one `char` per byte; nothing below depends
on how many different characters there are. */
module Text {

  datatype Option<+T> = None | Some(value: T)

  /** `sub` stands in `s` at position `i`. */
  predicate OccursAt(s: string, sub: string, i: int) {
    0 <= i && i + |sub| <= |s| && s[i..i + |sub|] == sub
  }

  ghost predicate Contains(s: string, sub: string) {
    exists i :: OccursAt(s, sub, i)
  }

  predicate FirstAt(s: string, sub: string, i: int) {
    OccursAt(s, sub, i) && forall j | 0 <= j < i :: !OccursAt(s, sub, j)
  }

  lemma {:induction false} FirstExists(s: string, sub: string, n: int)
    requires OccursAt(s, sub, n)
    ensures exists i :: 0 <= i <= |s| && FirstAt(s, sub, i)
    decreases n
  {
    if j :| 0 <= j < n && OccursAt(s, sub, j) {
      FirstExists(s, sub, j);
    } else {
      assert FirstAt(s, sub, n);
    }
  }

  /** `strings.Index`: the first occurrence, or -1. */
  function Index(s: string, sub: string): (r: int)
    ensures r == -1 || FirstAt(s, sub, r)
    ensures r == -1 <==> !Contains(s, sub)
  {
    if n :| 0 <= n <= |s| && OccursAt(s, sub, n) then
      FirstExists(s, sub, n);
      var i :| 0 <= i <= |s| && FirstAt(s, sub, i);
      i
    else -1
  }

  predicate IsDigit(c: char) {
    '0' <= c <= '9'
  }

  predicate AllDigits(s: string) {
    forall i :: 0 <= i < |s| ==> IsDigit(s[i])
  }

  function DigitChar(d: nat): (c: char)
    requires d < 10
    ensures IsDigit(c) && c as int == '0' as int + d
  {
    ('0' as int + d) as char
  }

  /** The value of a digit string read in base ten; the empty string reads as 0. */
  function Value(s: string): (n: nat)
    requires AllDigits(s)
  {
    if s == "" then 0 else 10 * Value(s[..|s| - 1]) + (s[|s| - 1] as int - '0' as int)
  }

  /** `%d` and `strconv.Itoa` on a non-negative number. */
  function Digits(n: nat): (s: string)
    ensures |s| > 0 && AllDigits(s) && Value(s) == n && (|s| > 1 ==> s[0] != '0')
  {
    if n < 10 then [DigitChar(n)]
    else
      var s := Digits(n / 10) + [DigitChar(n % 10)];
      assert s[..|s| - 1] == Digits(n / 10);
      s
  }

  lemma DigitsInjective(m: nat, n: nat)
    requires Digits(m) == Digits(n)
    ensures m == n
  {
  }

  /** Two strings that agree up to their first `sep` agree on both sides of it. */
  lemma SplitAt(sep: char, a: string, x: string, b: string, y: string)
    requires sep !in a && sep !in b
    requires a + [sep] + x == b + [sep] + y
    ensures a == b && x == y
  {
    var s := a + [sep] + x;
    assert s[|a|] == sep && s[|b|] == sep;
    assert forall i :: 0 <= i < |a| ==> s[i] == a[i];
    assert forall i :: 0 <= i < |b| ==> s[i] == b[i];
    assert |a| == |b|;
    assert a == s[..|a|] && b == s[..|b|];
    assert x == s[|a| + 1..] && y == s[|b| + 1..];
  }
}
