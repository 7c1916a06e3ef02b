/**
 * String helpers shared by the path functions and the renderers: the searches of
 * std::string (rfind, find, find_last_of, with npos written as -1), decimal and
 * hexadecimal rendering of naturals (std::to_string, std::hex), and joining.
 */
module Text {

  type Str = seq<char>

  /** Index of the last occurrence of `c` in `s`, or -1 when there is none. */
  function LastIndexOf(s: Str, c: char): (i: int)
    ensures -1 <= i < |s|
    ensures i >= 0 ==> s[i] == c
    ensures forall k :: i < k < |s| ==> s[k] != c
  {
    if |s| == 0 then -1
    else if s[|s| - 1] == c then |s| - 1
    else LastIndexOf(s[..|s| - 1], c)
  }

  /** Index of the first occurrence of `c` in `s` at or after `from`, or -1 when there is none. */
  function IndexFrom(s: Str, c: char, from: nat): (i: int)
    requires from <= |s|
    ensures i == -1 || from <= i < |s|
    ensures i >= 0 ==> s[i] == c
    ensures forall k :: from <= k < |s| && (i == -1 || k < i) ==> s[k] != c
    decreases |s| - from
  {
    if from == |s| then -1
    else if s[from] == c then from
    else IndexFrom(s, c, from + 1)
  }

  // ---------------------------------------------------------------------------
  // Rendering of naturals in base 10 (std::to_string) and base 16 (std::hex)
  // ---------------------------------------------------------------------------

  /** The digit character for `d`: '0'..'9', then 'a'..'f' as std::hex prints them. */
  function DigitChar(d: nat): (c: char)
    requires d < 16
    ensures '0' <= c <= '9' || 'a' <= c <= 'f'
  {
    if d < 10 then ('0' as int + d) as char else ('a' as int + d - 10) as char
  }

  /** The value of a digit character, 0 for anything that is not one. */
  function DigitValue(c: char): nat
  {
    if c == '0' then 0 else if c == '1' then 1 else if c == '2' then 2
    else if c == '3' then 3 else if c == '4' then 4 else if c == '5' then 5
    else if c == '6' then 6 else if c == '7' then 7 else if c == '8' then 8
    else if c == '9' then 9 else if c == 'a' then 10 else if c == 'b' then 11
    else if c == 'c' then 12 else if c == 'd' then 13 else if c == 'e' then 14
    else if c == 'f' then 15 else 0
  }

  /** Most significant digit first, no leading zeros, "0" for zero. */
  function Digits(n: nat, base: nat): (s: Str)
    requires 2 <= base <= 16
    ensures |s| >= 1
    decreases n
  {
    if n < base then [DigitChar(n)]
    else
      DivisionShrinks(n, base);
      Digits(n / base, base) + [DigitChar(n % base)]
  }

  lemma DivisionShrinks(n: nat, base: nat)
    requires 2 <= base <= n
    ensures n / base < n && n % base < base
    ensures n == n / base * base + n % base
  {
  }

  /** Reads a digit string back: the reference meaning of `Digits`. */
  function ValueOf(s: Str, base: nat): nat
  {
    if s == [] then 0 else ValueOf(s[..|s| - 1], base) * base + DigitValue(s[|s| - 1])
  }

  lemma {:induction false} DigitsRoundTrip(n: nat, base: nat)
    requires 2 <= base <= 16
    ensures ValueOf(Digits(n, base), base) == n
    decreases n
  {
    var s := Digits(n, base);
    if n < base {
      assert s[..0] == [];
      DigitValueInverse(n);
    } else {
      DivisionShrinks(n, base);
      var q, r := n / base, n % base;
      DigitsRoundTrip(q, base);
      assert s == Digits(q, base) + [DigitChar(r)];
      assert s[..|s| - 1] == Digits(q, base);
      DigitValueInverse(r);
      assert ValueOf(s, base) == ValueOf(Digits(q, base), base) * base + r;
    }
  }

  /** Each digit character reads back as its position. */
  lemma DigitValueInverse(d: nat)
    requires d < 16
    ensures DigitValue(DigitChar(d)) == d
  {
    if d < 8 {
      assert d == 0 || d == 1 || d == 2 || d == 3 || d == 4 || d == 5 || d == 6 || d == 7;
    } else {
      assert d == 8 || d == 9 || d == 10 || d == 11 || d == 12 || d == 13 || d == 14 || d == 15;
    }
  }

  /** Different naturals render differently. */
  lemma DigitsInjective(m: nat, n: nat, base: nat)
    requires 2 <= base <= 16
    requires Digits(m, base) == Digits(n, base)
    ensures m == n
  {
    DigitsRoundTrip(m, base);
    DigitsRoundTrip(n, base);
  }

  /** std::to_string on an unsigned value. */
  function NatToString(n: nat): Str
  {
    Digits(n, 10)
  }

  /** std::to_string on a signed value. */
  function IntToString(i: int): Str
  {
    if i < 0 then "-" + Digits(-i, 10) else Digits(i, 10)
  }

  // ---------------------------------------------------------------------------
  // Joining
  // ---------------------------------------------------------------------------

  /** The elements of `xs` separated by single commas. */
  function JoinCommas(xs: seq<Str>): Str
    requires |xs| > 0
  {
    if |xs| == 1 then xs[0] else JoinCommas(xs[..|xs| - 1]) + "," + xs[|xs| - 1]
  }

  /** Every element of `xs` followed by a comma. */
  function CommaTerminated(xs: seq<Str>): Str
  {
    if xs == [] then [] else CommaTerminated(xs[..|xs| - 1]) + xs[|xs| - 1] + ","
  }

  lemma {:induction false} CommaTerminatedIsJoinPlusComma(xs: seq<Str>)
    requires |xs| > 0
    ensures CommaTerminated(xs) == JoinCommas(xs) + ","
    decreases |xs|
  {
    if |xs| == 1 {
      assert xs[..0] == [];
    } else {
      CommaTerminatedIsJoinPlusComma(xs[..|xs| - 1]);
    }
  }
}
