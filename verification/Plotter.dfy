/** The grid lines of scons-time.py's graphs. */
module Plotter {
  import opened Text

  function Power10(k: nat): (p: nat)
    ensures p > 0
  {
    if k == 0 then 1 else 10 * Power10(k - 1)
  }

  /** `n` is the digit `d` followed by `k` zeros. */
  predicate OneDigit(n: int, d: int, k: nat) { 1 <= d <= 9 && n == d * Power10(k) }

  /** `n` lies in `[q * m, (q + 1) * m)`. */
  lemma Quotient(n: int, m: int, q: int)
    requires m > 0 && q * m <= n < (q + 1) * m
    ensures n / m == q
  {
    var r := n / m;
    assert r * m <= n < r * m + m;
    if r < q {
      Scale(r + 1, q, m);
    } else if r > q {
      Scale(q + 1, r, m);
    }
  }

  /** The lines an increment `d * m` gives when a fifth of `largest` lies between `d` and `d + 1` times `m`. */
  lemma Lines(largest: int, d: int, m: int)
    requires 1 <= d <= 9 && m > 0 && d * m <= largest / 5 < (d + 1) * m
    ensures d * m > 0 && 5 <= largest / (d * m) <= 9
  {
    var inc := d * m;
    Scale(1, d, m);
    assert (d + 1) * m == inc + m;
    assert 5 * inc <= largest < 10 * inc;
    QuotientBetween(largest, inc);
  }

  lemma QuotientBetween(n: int, inc: int)
    requires inc > 0 && 5 * inc <= n < 10 * inc
    ensures 5 <= n / inc <= 9
  {
    var q := n / inc;
    assert q * inc <= n < q * inc + inc;
    if q < 5 { Scale(q + 1, 5, inc); }
    if q > 9 { Scale(10, q, inc); }
  }

  lemma Scale(a: int, b: int, m: int)
    requires a <= b && m >= 0
    ensures a * m <= b * m
  {
  }

  /** The leading digit of a number, followed by zeros; what is below 10 stays as it is. */
  function Coarse(i: int): int {
    if i < 10 then i else 10 * Coarse(i / 10)
  }

  function Increment(largest: int): int {
    if largest / 5 == 0 then largest else Coarse(largest / 5)
  }

  lemma {:induction false} CoarseIsOneDigit(n: int) returns (d: int, k: nat)
    requires n >= 1
    ensures OneDigit(Coarse(n), d, k) && d * Power10(k) <= n < (d + 1) * Power10(k)
    decreases n
  {
    if n < 10 {
      d, k := n, 0;
    } else {
      d, k := CoarseIsOneDigit(n / 10);
      var m := Power10(k);
      k := k + 1;
      assert d * Power10(k) == 10 * (d * m) && (d + 1) * Power10(k) == 10 * ((d + 1) * m);
    }
  }

  /** The promise of `increment_size`: one digit followed by zeros, and between 5 and 9 lines, for exactly the
      positive values that are at least 5. */
  lemma IncrementGivesLines(largest: int)
    requires largest > 0
    ensures Increment(largest) > 0
    ensures largest >= 5 <==> 5 <= largest / Increment(largest) <= 9
    ensures exists d, k :: OneDigit(Increment(largest), d, k)
  {
    if largest < 5 {
      assert OneDigit(largest, largest, 0);
      Quotient(largest, largest, 1);
    } else {
      var d, k := CoarseIsOneDigit(largest / 5);
      Lines(largest, d, Power10(k));
    }
  }

  lemma {:induction false} PowersGrow(j: nat, k: nat)
    requires j < k
    ensures 10 * Power10(j) <= Power10(k)
  {
    if j + 1 < k { PowersGrow(j, k - 1); }
  }

  /** No larger number of the form digit-and-zeros fits below a fifth of the value; values below 5 are their own
      increment, negative ones give the floor of a fifth. */
  lemma IncrementIsLargest(largest: int)
    ensures 0 <= largest < 5 ==> Increment(largest) == largest
    ensures largest < 0 ==> 5 * Increment(largest) <= largest < 5 * Increment(largest) + 5
    ensures largest >= 5 ==> 5 * Increment(largest) <= largest
    ensures largest >= 5 ==> forall n, d, k :: OneDigit(n, d, k) && 5 * n <= largest ==> n <= Increment(largest)
  {
    if largest >= 5 {
      var d, k := CoarseIsOneDigit(largest / 5);
      forall n, d', k' | OneDigit(n, d', k') && 5 * n <= largest ensures n <= Increment(largest) {
        OneDigitBelow(n, d', k', d, k, largest / 5);
      }
    }
  }

  lemma OneDigitBelow(n: int, d': int, k': nat, d: int, k: nat, i: int)
    requires OneDigit(n, d', k') && n <= i && 1 <= d <= 9 && d * Power10(k) <= i < (d + 1) * Power10(k)
    ensures n <= d * Power10(k)
  {
    var m, m' := Power10(k), Power10(k');
    if k' < k {
      PowersGrow(k', k);
      Scale(d', 10, m');
      Scale(1, d, m);
    } else if k' > k {
      PowersGrow(k, k');
      Scale(1, d', m');
      Scale(d + 1, 10, m);
    } else if d' > d {
      Scale(d + 1, d', m);
    } else {
      Scale(d', d, m);
    }
  }

  method IncrementSize(largest: int) returns (increment: int)
    ensures increment == Increment(largest)
  {
    var i := largest / 5;
    if i == 0 {
      return largest;
    }
    var multiplier := 1;
    while i >= 10
      invariant Coarse(i) * multiplier == Coarse(largest / 5)
      decreases i
    {
      ghost var c := Coarse(i / 10);
      assert (10 * c) * multiplier == c * (multiplier * 10);
      i := i / 10;
      multiplier := multiplier * 10;
    }
    return i * multiplier;
  }

  /** Python's `int(x)`: towards zero. */
  function Truncate(x: real): int { if x >= 0.0 then x.Floor else -(-x).Floor }

  /** Python's `//`, which floors for divisors of either sign. */
  function FloorDiv(a: int, b: int): int
    requires b != 0
  {
    if b > 0 then a / b else (-a) / (-b)
  }

  /** `int(x)` is the nearest whole number that is not further from zero. */
  lemma TruncateMeans(x: real)
    ensures x >= 0.0 ==> 0.0 <= Truncate(x) as real <= x < Truncate(x) as real + 1.0
    ensures x < 0.0 ==> Truncate(x) as real - 1.0 < x <= Truncate(x) as real <= 0.0
  {
  }

  lemma FloorDivMeans(a: int, b: int)
    requires b != 0
    ensures b > 0 ==> b * FloorDiv(a, b) <= a < b * FloorDiv(a, b) + b
    ensures b < 0 ==> b * FloorDiv(a, b) + b < a <= b * FloorDiv(a, b)
  {
  }

  /** `max_graph_value`; `None` is the division by zero that one value range runs into. */
  method MaxGraphValue(largest: real) returns (value: Option<int>)
    ensures value.None? <==> Truncate(largest) == -1
    ensures largest >= 0.0 ==>
              value.Some? && IsLeastMultiple(value.value, Increment(Truncate(largest) + 1), Truncate(largest) + 1) &&
              value.value as real > largest
    ensures largest < 0.0 && value.Some? ==>
              var n := Truncate(largest) + 1; value.value == FloorDiv(n + Increment(n) - 1, Increment(n)) * Increment(n)
  {
    var whole := Truncate(largest) + 1;
    var increment := IncrementSize(whole);
    if whole > 0 {
      IncrementGivesLines(whole);
      RoundsUp(whole, increment);
    }
    if increment == 0 {
      return None;
    }
    return Some(FloorDiv(whole + increment - 1, increment) * increment);
  }

  /** `v` is the least multiple of `inc` that is at least `n`. */
  ghost predicate IsLeastMultiple(v: int, inc: int, n: int) {
    inc > 0 && v % inc == 0 && v >= n && forall w :: w % inc == 0 && w >= n ==> w >= v
  }

  lemma RoundsUp(n: int, inc: int)
    requires n > 0 && inc > 0
    ensures var v := ((n + inc - 1) / inc) * inc;
            IsLeastMultiple(v, inc, n) && v < n + inc
  {
    var q := (n + inc - 1) / inc;
    var v := q * inc;
    assert q * inc <= n + inc - 1 < q * inc + inc;
    MultipleOf(q, inc);
    forall w | w % inc == 0 && w >= n ensures w >= v {
      var p := w / inc;
      assert w == p * inc;
      if p < q { Scale(p + 1, q, inc); }
      Scale(q, if p < q then q else p, inc);
    }
  }

  lemma MultipleOf(q: int, inc: int)
    requires inc > 0
    ensures (q * inc) % inc == 0
  {
    Quotient(q * inc, inc, q);
  }
}
