/** Strings as the modelled programs use them: searching, splicing and printing decimal numbers. */
module Text {

  datatype Option<+T> = None | Some(value: T)

  // ---------- Searching and splicing ----------

  /** True when `pat` stands in `s` at position `i`. */
  predicate At(s: string, pat: string, i: int) {
    0 <= i && i + |pat| <= |s| && s[i..i + |pat|] == pat
  }

  /** `std::string::find(pat, from)`; -1 stands for `npos`. */
  function Find(s: string, pat: string, from: nat): (i: int)
    ensures i == -1 ==> forall k :: from <= k ==> !At(s, pat, k)
    ensures i != -1 ==> from <= i && At(s, pat, i) && forall k :: from <= k < i ==> !At(s, pat, k)
    decreases |s| - from
  {
    if from + |pat| > |s| then -1
    else if At(s, pat, from) then from
    else Find(s, pat, from + 1)
  }

  lemma AtSuffix(a: string, b: string, pat: string, k: nat)
    requires |a| <= k
    ensures At(a + b, pat, k) <==> At(b, pat, k - |a|)
  {
    if k + |pat| <= |a + b| {
      assert (a + b)[k..k + |pat|] == b[k - |a|..k - |a| + |pat|];
    }
  }

  /** `std::string::replace(i, n, piece)`. */
  function Splice(s: string, i: nat, n: nat, piece: string): string
    requires i + n <= |s|
  {
    s[..i] + piece + s[i + n..]
  }

  // ---------- Decimal numerals ----------

  predicate IsDigit(c: char) { '0' <= c <= '9' }

  predicate AllDigits(s: string) { forall i :: 0 <= i < |s| ==> IsDigit(s[i]) }

  function Digit(d: nat): (c: char)
    requires d < 10
    ensures IsDigit(c)
  {
    '0' + (d as char)
  }

  /** What an output stream prints for a non-negative integer. */
  function Decimal(n: nat): (s: string)
    ensures |s| > 0 && AllDigits(s)
    ensures n > 0 ==> s[0] != '0'
  {
    if n < 10 then [Digit(n)] else Decimal(n / 10) + [Digit(n % 10)]
  }

  /** What `int(s)` reads from a run of digits. */
  function Numeral(s: string): nat
    requires AllDigits(s)
  {
    if s == "" then 0
    else 10 * Numeral(s[..|s| - 1]) + (s[|s| - 1] as int - '0' as int)
  }

  lemma {:induction false} NumeralOfDecimal(n: nat)
    ensures Numeral(Decimal(n)) == n
  {
    if n < 10 {
      assert Decimal(n)[..0] == "";
    } else {
      NumeralOfDecimal(n / 10);
      var s := Decimal(n);
      assert s[..|s| - 1] == Decimal(n / 10);
    }
  }

  /** A digit at the end of a numeral counts once, and what is before it ten times. */
  lemma NumeralAppend(s: string, d: nat)
    requires AllDigits(s) && d < 10
    ensures AllDigits(s + ["0123456789"[d]]) && Numeral(s + ["0123456789"[d]]) == 10 * Numeral(s) + d
  {
    var t := s + ["0123456789"[d]];
    assert t[..|t| - 1] == s;
  }

  lemma DecimalInjective(m: nat, n: nat)
    requires Decimal(m) == Decimal(n)
    ensures m == n
  {
    NumeralOfDecimal(m);
    NumeralOfDecimal(n);
  }

  /** Two runs of digits, each closed by the same non-digit, can be told apart. */
  lemma DigitRunsSplit(a: string, b: string, stop: char, x: string, y: string)
    requires AllDigits(a) && AllDigits(b) && !IsDigit(stop)
    requires a + [stop] + x == b + [stop] + y
    ensures a == b && x == y
  {
    var s := a + [stop] + x;
    assert s[|a|] == stop && s[|b|] == stop;
    assert a == s[..|a|] && b == s[..|b|];
    assert x == s[|a| + 1..] && y == s[|b| + 1..];
  }

  lemma Associate<T>(a: seq<T>, b: seq<T>, c: seq<T>)
    ensures a + (b + c) == (a + b) + c
  {
  }
}
