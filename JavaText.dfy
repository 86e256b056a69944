/**
 * The few `java.lang.String` and `Integer` operations the streaming code relies
 * on, restricted to ASCII text: `trim`, `startsWith`, `split` at a colon,
 * `equalsIgnoreCase`, `toUpperCase`, `Integer.toString` and `Integer.parseInt`.
 */
module JavaText {
  import opened Wrappers
  import opened Bytes

  predicate StartsWith(s: string, prefix: string) {
    |prefix| <= |s| && s[..|prefix|] == prefix
  }

  predicate EndsWith(s: string, suffix: string) {
    |suffix| <= |s| && s[|s| - |suffix|..] == suffix
  }

  // ---------------------------------------------------------------- case

  function LowerChar(c: char): char {
    if 'A' <= c <= 'Z' then (c as int + 32) as char else c
  }

  function UpperChar(c: char): char {
    if 'a' <= c <= 'z' then (c as int - 32) as char else c
  }

  function ToLower(s: string): (r: string)
    ensures |r| == |s| && forall i :: 0 <= i < |s| ==> r[i] == LowerChar(s[i])
  {
    seq(|s|, i requires 0 <= i < |s| => LowerChar(s[i]))
  }

  function ToUpper(s: string): (r: string)
    ensures |r| == |s| && forall i :: 0 <= i < |s| ==> r[i] == UpperChar(s[i])
  {
    seq(|s|, i requires 0 <= i < |s| => UpperChar(s[i]))
  }

  /** `a.equalsIgnoreCase(b)` for ASCII text. */
  predicate EqualsIgnoreCase(a: string, b: string) {
    ToLower(a) == ToLower(b)
  }

  // ---------------------------------------------------------------- trim

  /** `String.trim` drops every character up to and including U+0020 from both ends. */
  predicate IsTrimmed(c: char) {
    c <= ' '
  }

  function TrimStart(s: string): (r: string)
    ensures |r| <= |s| && r == s[|s| - |r|..]
    ensures r == [] || !IsTrimmed(r[0])
    ensures forall i :: 0 <= i < |s| - |r| ==> IsTrimmed(s[i])
  {
    if s != [] && IsTrimmed(s[0]) then TrimStart(s[1..]) else s
  }

  function TrimEnd(s: string): (r: string)
    ensures |r| <= |s| && r == s[..|r|]
    ensures r == [] || !IsTrimmed(r[|r| - 1])
    ensures forall i :: |r| <= i < |s| ==> IsTrimmed(s[i])
  {
    if s != [] && IsTrimmed(s[|s| - 1]) then TrimEnd(s[..|s| - 1]) else s
  }

  function Trim(s: string): string {
    TrimStart(TrimEnd(s))
  }

  // ---------------------------------------------------------------- colon split

  /** `s.indexOf(c)`, except that a missing `c` gives `|s|` instead of -1. */
  function IndexOf(s: string, c: char): (i: nat)
    ensures i <= |s|
    ensures forall j :: 0 <= j < i ==> s[j] != c
    ensures i < |s| ==> s[i] == c
  {
    if s == [] then 0 else if s[0] == c then 0 else 1 + IndexOf(s[1..], c)
  }

  /** The index of the first `:` in `s`, or `|s|` when there is none. */
  function ColonIndex(s: string): (i: nat)
    ensures i <= |s|
  {
    IndexOf(s, ':')
  }

  /** The first occurrence of `c` in `a + [c] + b` is the one after `a` when `a` has none. */
  lemma {:induction false} IndexOfAfter(a: string, c: char, b: string)
    requires forall j :: 0 <= j < |a| ==> a[j] != c
    ensures IndexOf(a + [c] + b, c) == |a|
  {
    if a != [] {
      assert (a + [c] + b)[1..] == a[1..] + [c] + b;
      IndexOfAfter(a[1..], c, b);
    }
  }

  /** When `p` ends in a character `trim` keeps, trimming the end of `p + a` only touches `a`. */
  lemma {:induction false} TrimEndAfter(p: string, a: string)
    requires p != [] && !IsTrimmed(p[|p| - 1])
    ensures TrimEnd(p + a) == p + TrimEnd(a)
    decreases |a|
  {
    if a == [] {
      assert p + a == p;
    } else if IsTrimmed(a[|a| - 1]) {
      assert (p + a)[..|p + a| - 1] == p + a[..|a| - 1];
      TrimEndAfter(p, a[..|a| - 1]);
    }
  }

  /** The text before the first colon: `parts[0]` of both `split(":")` and `split(":", 2)`. */
  function BeforeColon(s: string): string {
    s[..ColonIndex(s)]
  }

  /** `parts[1]` of `s.split(":", 2)`, present only when `s` holds a colon. */
  function AfterColon(s: string): Option<string> {
    var i := ColonIndex(s);
    if i < |s| then Some(s[i + 1..]) else None
  }

  // ---------------------------------------------------------------- decimal

  predicate IsDigit(c: char) {
    '0' <= c <= '9'
  }

  predicate AllDigits(s: string) {
    forall i :: 0 <= i < |s| ==> IsDigit(s[i])
  }

  function DigitChar(d: nat): char
    requires d < 10
  {
    ('0' as int + d) as char
  }

  /** The value of a string of decimal digits, most significant first. */
  function DigitsValue(s: string): (v: nat)
    requires AllDigits(s)
  {
    if s == [] then 0 else DigitsValue(s[..|s| - 1]) * 10 + (s[|s| - 1] as int - '0' as int)
  }

  /** The decimal digits of `n` with no leading zero. */
  function NatToString(n: nat): (s: string)
    ensures |s| >= 1 && AllDigits(s)
  {
    if n < 10 then [DigitChar(n)] else NatToString(n / 10) + [DigitChar(n % 10)]
  }

  /** `Integer.toString(n)` (and `"" + n`). */
  function IntToString(n: int): (s: string)
    ensures |s| >= 1 && forall i :: 0 <= i < |s| ==> s[i] != ':' && s[i] != ','
  {
    if n < 0 then "-" + NatToString(-n) else NatToString(n)
  }

  /** The numerals `Integer.parseInt` reads: an optional `+` or `-`, then at least one decimal digit. */
  predicate IsNumeral(s: string) {
    && s != []
    && (forall i :: 1 <= i < |s| ==> IsDigit(s[i]))
    && (IsDigit(s[0]) || ((s[0] == '-' || s[0] == '+') && |s| >= 2))
  }

  /** The value a numeral denotes. */
  function NumeralValue(s: string): int
    requires IsNumeral(s)
  {
    var digits := if IsDigit(s[0]) then s else s[1..];
    if s[0] == '-' then -(DigitsValue(digits) as int) else DigitsValue(digits)
  }

  /**
   * `Integer.parseInt(s)`: an optional sign followed by at least one decimal
   * digit, with a value that fits in an `int`; anything else throws
   * `NumberFormatException`, modelled as `None`.
   */
  function ParseInt(s: string): (r: Option<int>)
    ensures r.Some? <==> IsNumeral(s) && IsInt32(NumeralValue(s))
    ensures r.Some? ==> r.value == NumeralValue(s)
  {
    if s == [] then None
    else if s[0] == '-' || s[0] == '+' then
      if |s| == 1 || !AllDigits(s[1..]) then None
      else
        var v: int := if s[0] == '-' then -(DigitsValue(s[1..]) as int) else DigitsValue(s[1..]);
        if IsInt32(v) then Some(v) else None
    else if AllDigits(s) then
      var v := DigitsValue(s);
      if IsInt32(v) then Some(v) else None
    else None
  }

  lemma {:induction false} DigitsValueOfNatToString(n: nat)
    ensures DigitsValue(NatToString(n)) == n
  {
    var s := NatToString(n);
    if n >= 10 {
      DigitsValueOfNatToString(n / 10);
      assert s[..|s| - 1] == NatToString(n / 10);
    }
  }

  /** `Integer.parseInt(Integer.toString(n)) == n` for every Java `int`. */
  lemma ParseIntToString(n: int)
    requires IsInt32(n)
    ensures ParseInt(IntToString(n)) == Some(n)
  {
    var s := IntToString(n);
    if n < 0 {
      var digits := NatToString(-n);
      assert s == "-" + digits && s[1..] == digits;
      assert IsDigit(digits[0]) && |s| >= 2;
      assert forall i :: 1 <= i < |s| ==> s[i] == digits[i - 1];
      DigitsValueOfNatToString(-n);
      assert NumeralValue(s) == n;
    } else {
      DigitsValueOfNatToString(n);
      assert IsDigit(s[0]);
      assert NumeralValue(s) == n;
    }
  }
}
