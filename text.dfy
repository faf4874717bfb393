/** The Python string behaviour the core relies on: `str.endswith`, the
    case-insensitive containment behind `icontains`, and `int()` / `str()`
    on decimal integers (used for the `limit` query parameter and for the
    decoded user id of a password-reset link). */
module Text {
  import opened Wrappers

  /** `s.endswith(suffix)`. */
  predicate EndsWith(s: string, suffix: string) {
    |suffix| <= |s| && s[|s| - |suffix|..] == suffix
  }

  function LowerChar(c: char): char {
    if 'A' <= c <= 'Z' then (c as int + 32) as char else c
  }

  function Lower(s: string): (r: string)
    ensures |r| == |s|
    ensures forall i :: 0 <= i < |s| ==> r[i] == LowerChar(s[i])
  {
    seq(|s|, i requires 0 <= i < |s| => LowerChar(s[i]))
  }

  predicate OccursAt(needle: string, hay: string, i: int) {
    0 <= i <= |hay| - |needle| && hay[i..i + |needle|] == needle
  }

  predicate IsSubstring(needle: string, hay: string) {
    exists i | 0 <= i <= |hay| :: OccursAt(needle, hay, i)
  }

  /** The `icontains` lookup: `needle` occurs in `hay` ignoring letter case. */
  predicate ContainsIgnoreCase(hay: string, needle: string) {
    IsSubstring(Lower(needle), Lower(hay))
  }

  /** An empty search text matches every value. */
  lemma EmptyNeedleMatches(hay: string)
    ensures ContainsIgnoreCase(hay, "")
  {
    assert OccursAt(Lower(""), Lower(hay), 0);
  }

  // ----- int() on a string -------------------------------------------------

  /** The characters `str.strip()` (and so `int()`) treats as whitespace:
      the ASCII ones and the Unicode separators Python's `str.isspace`
      accepts. */
  predicate IsSpace(c: char) {
    var n := c as int;
    || n == 0x20 || 0x09 <= n <= 0x0D || 0x1C <= n <= 0x1F
    || n == 0x85 || n == 0xA0 || n == 0x1680 || 0x2000 <= n <= 0x200A
    || n == 0x2028 || n == 0x2029 || n == 0x202F || n == 0x205F || n == 0x3000
  }

  function StripLeft(s: string): string {
    if s != [] && IsSpace(s[0]) then StripLeft(s[1..]) else s
  }

  function StripRight(s: string): string {
    if s != [] && IsSpace(s[|s| - 1]) then StripRight(s[..|s| - 1]) else s
  }

  function Strip(s: string): string {
    StripRight(StripLeft(s))
  }

  predicate IsDigit(c: char) {
    '0' <= c <= '9'
  }

  /** Decimal digits with single underscores between them, as `int()` accepts. */
  predicate IsDigitGroup(s: string) {
    && s != []
    && IsDigit(s[0])
    && IsDigit(s[|s| - 1])
    && (forall i :: 0 <= i < |s| ==> IsDigit(s[i]) || s[i] == '_')
    && (forall i :: 0 <= i < |s| - 1 && s[i] == '_' ==> s[i + 1] != '_')
  }

  function DigitValue(c: char): nat
    requires IsDigit(c)
  {
    c as int - '0' as int
  }

  /** The value of the digits of `s`, underscores skipped. */
  function DigitsValue(s: string): nat {
    if s == [] then 0
    else if IsDigit(s[|s| - 1]) then DigitsValue(s[..|s| - 1]) * 10 + DigitValue(s[|s| - 1])
    else DigitsValue(s[..|s| - 1])
  }

  /** Python's `int(s)` on a `str`: `None` stands for the `ValueError` it raises. */
  function ParseInt(s: string): Option<int> {
    var t := Strip(s);
    if t == [] then None
    else
      var body := if t[0] == '-' || t[0] == '+' then t[1..] else t;
      var value: int := DigitsValue(body);
      if !IsDigitGroup(body) then None
      else if t[0] == '-' then Some(-value)
      else Some(value)
  }

  // ----- str() on an int -----------------------------------------------------

  function DigitChar(d: nat): (c: char)
    requires d < 10
    ensures IsDigit(c) && DigitValue(c) == d
  {
    ('0' as int + d) as char
  }

  function ShowNat(n: nat): (r: string)
    ensures r != []
    ensures forall i :: 0 <= i < |r| ==> IsDigit(r[i])
  {
    if n < 10 then [DigitChar(n)] else ShowNat(n / 10) + [DigitChar(n % 10)]
  }

  /** Python's `str(n)` for an `int`. */
  function Show(n: int): string {
    if n < 0 then "-" + ShowNat(-n) else ShowNat(n)
  }

  lemma {:induction false} ShowNatValue(n: nat)
    ensures DigitsValue(ShowNat(n)) == n
  {
    if n >= 10 {
      var s := ShowNat(n);
      assert s[..|s| - 1] == ShowNat(n / 10);
      ShowNatValue(n / 10);
    }
  }

  /** A string whose ends are not whitespace is its own `strip()`. */
  lemma StripUnchanged(s: string)
    requires s != [] && !IsSpace(s[0]) && !IsSpace(s[|s| - 1])
    ensures Strip(s) == s
  {
    assert StripLeft(s) == s;
  }

  /** The digits `str` prints for a natural number form a digit group
      whose ends are not whitespace. */
  lemma ShowNatIsDigitGroup(m: nat)
    ensures IsDigitGroup(ShowNat(m)) && DigitsValue(ShowNat(m)) == m
    ensures !IsSpace(ShowNat(m)[0]) && !IsSpace(ShowNat(m)[|ShowNat(m)| - 1])
  {
    var digits := ShowNat(m);
    ShowNatValue(m);
    assert IsDigit(digits[0]) && IsDigit(digits[|digits| - 1]);
  }

  /** `int(str(n)) == n`: every integer the source prints parses back. */
  lemma ParseIntShow(n: int)
    ensures ParseInt(Show(n)) == Some(n)
  {
    var m: nat := if n < 0 then -n else n;
    var digits := ShowNat(m);
    ShowNatIsDigitGroup(m);
    var s := Show(n);
    if n < 0 {
      assert s == "-" + digits;
      assert s[|s| - 1] == digits[|digits| - 1];
      StripUnchanged(s);
      assert s[1..] == digits;
    } else {
      assert s == digits;
      StripUnchanged(s);
    }
  }
}
