/** The order `std::sort` uses on (type, path) pairs, and what sorting followed by `std::unique` and `erase` leaves. */
module RecordOrder {
  import opened PathSearch

  /** Lexicographic order on strings. */
  predicate StringLess(a: string, b: string) {
    if b == "" then false
    else if a == "" then true
    else a[0] < b[0] || (a[0] == b[0] && StringLess(a[1..], b[1..]))
  }

  predicate Less(a: Record, b: Record) {
    a.0 < b.0 || (a.0 == b.0 && StringLess(a.1, b.1))
  }

  /** `k` is where `a` comes before `b`: they agree up to there, and then `a` ends or has the smaller character. */
  ghost predicate PartsAt(a: string, b: string, k: int) {
    0 <= k <= |a| && k < |b| && a[..k] == b[..k] && (k == |a| || a[k] < b[k])
  }

  /** One string is before another iff it is a proper prefix, or the first character that differs is smaller. */
  lemma {:induction false} StringLessMeans(a: string, b: string)
    ensures StringLess(a, b) <==> exists k :: PartsAt(a, b, k)
  {
    if b == "" {
    } else if a == "" {
      assert PartsAt(a, b, 0);
    } else if a[0] == b[0] {
      StringLessMeans(a[1..], b[1..]);
      if k :| PartsAt(a[1..], b[1..], k) { Shift(a, b, k); assert PartsAt(a, b, k + 1); }
      if k :| PartsAt(a, b, k) {
        assert k > 0;
        Shift(a, b, k - 1);
        assert PartsAt(a[1..], b[1..], k - 1);
      }
    } else {
      assert a[0] < b[0] ==> PartsAt(a, b, 0);
      forall k | PartsAt(a, b, k) ensures k == 0 { FirstAgree(a, b, k); }
    }
  }

  lemma FirstAgree(a: string, b: string, k: int)
    requires a != "" && b != "" && PartsAt(a, b, k)
    ensures k == 0 || a[0] == b[0]
  {
    assert k > 0 ==> a[..k][0] == a[0] && b[..k][0] == b[0];
  }

  lemma Shift(a: string, b: string, k: int)
    requires a != "" && b != "" && a[0] == b[0] && 0 <= k
    ensures PartsAt(a[1..], b[1..], k) <==> PartsAt(a, b, k + 1)
  {
    if k < |a| && k < |b| {
      assert a[..k + 1] == [a[0]] + a[1..][..k] && b[..k + 1] == [b[0]] + b[1..][..k];
      assert a[1..][..k] == a[..k + 1][1..] && b[1..][..k] == b[..k + 1][1..];
    }
  }

  /** Records are ordered by type first, and by path within a type. */
  lemma LessMeans(a: Record, b: Record)
    ensures Less(a, b) <==> a.0 < b.0 || (a.0 == b.0 && exists k :: PartsAt(a.1, b.1, k))
  {
    StringLessMeans(a.1, b.1);
  }

  lemma {:induction false} StringOrder(a: string, b: string, c: string)
    ensures !StringLess(a, a)
    ensures StringLess(a, b) && StringLess(b, c) ==> StringLess(a, c)
    ensures StringLess(a, b) || a == b || StringLess(b, a)
  {
    if a != "" {
      StringOrder(a[1..], if b == "" then "" else b[1..], if c == "" then "" else c[1..]);
      if b != "" && a[0] == b[0] && a[1..] == b[1..] {
        assert a == [a[0]] + a[1..] && b == [b[0]] + b[1..];
      }
    }
  }

  lemma Order(a: Record, b: Record, c: Record)
    ensures !Less(a, a)
    ensures Less(a, b) && Less(b, c) ==> Less(a, c)
    ensures Less(a, b) || a == b || Less(b, a)
  {
    StringOrder(a.1, b.1, c.1);
  }

  /** Sorted and free of duplicates. */
  ghost predicate Increasing(s: seq<Record>) {
    forall i, j :: 0 <= i < j < |s| ==> Less(s[i], s[j])
  }

  function Insert(x: Record, s: seq<Record>): seq<Record> {
    if s == [] then [x]
    else if x == s[0] then s
    else if Less(x, s[0]) then [x] + s
    else [s[0]] + Insert(x, s[1..])
  }

  function SortUnique(s: seq<Record>): seq<Record> {
    if s == [] then [] else Insert(s[0], SortUnique(s[1..]))
  }

  lemma {:induction false} InsertSorts(x: Record, s: seq<Record>)
    requires Increasing(s)
    ensures Increasing(Insert(x, s))
    ensures forall y :: y in Insert(x, s) <==> y == x || y in s
  {
    if s == [] {
    } else {
      Order(x, s[0], s[0]);
      InsertSorts(x, s[1..]);
      assert s == [s[0]] + s[1..];
      if x == s[0] {
      } else if Less(x, s[0]) {
        forall j | 0 <= j < |s| ensures Less(x, s[j]) { Order(x, s[0], s[j]); }
      } else {
        var t := Insert(x, s[1..]);
        forall j | 0 <= j < |t| ensures Less(s[0], t[j]) {
          assert t[j] in t;
          if t[j] != x {
            var k :| 0 <= k < |s[1..]| && s[1..][k] == t[j];
            assert Less(s[0], s[k + 1]);
          }
        }
      }
    }
  }

  lemma {:induction false} SortUniqueSorts(s: seq<Record>)
    ensures Increasing(SortUnique(s))
    ensures forall y :: y in SortUnique(s) <==> y in s
  {
    if s != [] {
      SortUniqueSorts(s[1..]);
      InsertSorts(s[0], SortUnique(s[1..]));
    }
  }

  /** There is only one increasing sequence with given members, so the sorting algorithm does not matter. */
  lemma {:induction false} IncreasingIsUnique(s: seq<Record>, t: seq<Record>)
    requires Increasing(s) && Increasing(t)
    requires forall y :: y in s <==> y in t
    ensures s == t
  {
    assert |s| > 0 ==> s[0] in s;
    assert |t| > 0 ==> t[0] in t;
    if s != [] && t != [] {
      assert s[0] in t && t[0] in s;
      var i :| 0 <= i < |t| && t[i] == s[0];
      var j :| 0 <= j < |s| && s[j] == t[0];
      Order(s[0], t[0], s[0]);
      assert s[0] == t[0];
      forall y ensures y in s[1..] <==> y in t[1..] {
        Order(s[0], s[0], s[0]);
        if y in s[1..] {
          var a :| 0 <= a < |s[1..]| && s[1..][a] == y;
          assert Less(s[0], s[a + 1]);
          assert y in t;
        }
        if y in t[1..] {
          var a :| 0 <= a < |t[1..]| && t[1..][a] == y;
          assert Less(t[0], t[a + 1]);
          assert y in s;
        }
      }
      IncreasingIsUnique(s[1..], t[1..]);
      assert s == [s[0]] + s[1..] && t == [t[0]] + t[1..];
    }
  }
}
