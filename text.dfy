/**
 * The few string operations of Python that the engine relies on: substring
 * search (`sep in s`), `s.split(sep, 1)`, `sep.join(parts)` and the decimal
 * rendering of an integer (`str(n)`).
 */
module Text {
  import opened Wrappers

  /** `pat` occurs in `s` starting at index `i`. */
  predicate OccursAt(s: string, pat: string, i: nat)
  {
    i + |pat| <= |s| && s[i..i + |pat|] == pat
  }

  /** The first index at or after `from` where `pat` occurs in `s`. */
  function FindFrom(s: string, pat: string, from: nat): (r: Option<nat>)
    decreases |s| - from
    ensures r.Some? ==> from <= r.value && OccursAt(s, pat, r.value)
    ensures r.Some? ==> forall j: nat :: from <= j < r.value ==> !OccursAt(s, pat, j)
    ensures r.None? ==> forall j: nat :: from <= j ==> !OccursAt(s, pat, j)
  {
    if from + |pat| > |s| then None
    else if s[from..from + |pat|] == pat then Some(from)
    else FindFrom(s, pat, from + 1)
  }

  /** The index of the first occurrence of `pat` in `s` (Python's `s.find(pat)`). */
  function Find(s: string, pat: string): (r: Option<nat>)
    ensures r.Some? ==> OccursAt(s, pat, r.value) && forall j: nat :: j < r.value ==> !OccursAt(s, pat, j)
    ensures r.None? <==> forall j: nat :: !OccursAt(s, pat, j)
  {
    FindFrom(s, pat, 0)
  }

  /** Python's `pat in s`. */
  predicate Contains(s: string, pat: string)
  {
    Find(s, pat).Some?
  }

  /** Python's `sep.join(parts)`. */
  function Join(parts: seq<string>, sep: string): string
  {
    if parts == [] then []
    else if |parts| == 1 then parts[0]
    else parts[0] + sep + Join(parts[1..], sep)
  }

  /**
   * Python's `s.split(sep, 1)`: the text before the first occurrence of `sep`
   * and everything after it, or `[s]` when `sep` does not occur.
   */
  function Split1(s: string, sep: string): (parts: seq<string>)
    requires sep != []
    ensures |parts| == (if Contains(s, sep) then 2 else 1)
    ensures Join(parts, sep) == s
    ensures !Contains(parts[0], sep)
    ensures |parts| == 2 ==> parts[0] == s[..Find(s, sep).value]
  {
    match Find(s, sep)
    case None => [s]
    case Some(i) =>
      var before, after := s[..i], s[i + |sep|..];
      assert before + sep + after == s by {
        assert s == s[..i] + s[i..i + |sep|] + s[i + |sep|..];
      }
      FirstPieceHasNoSeparator(s, sep, i);
      [before, after]
  }

  lemma FirstPieceHasNoSeparator(s: string, sep: string, i: nat)
    requires sep != [] && i <= |s|
    requires forall j: nat :: j < i ==> !OccursAt(s, sep, j)
    ensures !Contains(s[..i], sep)
  {
    if Contains(s[..i], sep) {
      var j := Find(s[..i], sep).value;
      assert s[..i][j..j + |sep|] == s[j..j + |sep|];
      assert OccursAt(s, sep, j);
      assert false;
    }
  }

  /** The digit character for `d`. */
  function DigitChar(d: nat): (c: char)
    requires d < 10
    ensures '0' <= c <= '9' && c as int - '0' as int == d
  {
    ('0' as int + d) as char
  }

  predicate AllDigits(s: string)
  {
    forall i :: 0 <= i < |s| ==> '0' <= s[i] <= '9'
  }

  /** Python's `str(n)` for a natural number: its decimal digits. */
  function NatToString(n: nat): (s: string)
    ensures s != [] && AllDigits(s)
  {
    if n < 10 then [DigitChar(n)] else NatToString(n / 10) + [DigitChar(n % 10)]
  }

  /** Python's `str(n)` for an integer: a minus sign before the digits of a negative number. */
  function IntToString(n: int): (s: string)
    ensures s != []
    ensures (s[0] == '-') <==> n < 0
  {
    if n < 0 then "-" + NatToString(-n) else NatToString(n)
  }

  /** The number a string of decimal digits denotes (Python's `int(s)` on digits). */
  function DecimalValue(s: string): nat
    requires AllDigits(s)
  {
    if s == [] then 0 else DecimalValue(s[..|s| - 1]) * 10 + (s[|s| - 1] as int - '0' as int)
  }

  /** Reading back the digits of `n` gives `n`. */
  lemma {:induction false} DecimalRoundTrip(n: nat)
    ensures DecimalValue(NatToString(n)) == n
  {
    if n >= 10 {
      DecimalRoundTrip(n / 10);
      var s := NatToString(n);
      assert s[..|s| - 1] == NatToString(n / 10);
    }
  }

  /** After the minus sign, a negative number's rendering is its magnitude's digits. */
  lemma NegativeDigits(n: int)
    requires n < 0
    ensures IntToString(n)[1..] == NatToString(-n)
  {
    assert ("-" + NatToString(-n))[1..] == NatToString(-n);
  }

  /** Distinct natural numbers have distinct digit strings. */
  lemma NatToStringInjective(x: nat, y: nat)
    requires NatToString(x) == NatToString(y)
    ensures x == y
  {
    DecimalRoundTrip(x);
    DecimalRoundTrip(y);
  }

  /** Distinct integers have distinct decimal renderings. */
  lemma IntToStringInjective(a: int, b: int)
    requires IntToString(a) == IntToString(b)
    ensures a == b
  {
    if a < 0 {
      assert b < 0;
      NegativeDigits(a);
      NegativeDigits(b);
      NatToStringInjective(-a, -b);
    } else {
      assert b >= 0;
      NatToStringInjective(a, b);
    }
  }
}
