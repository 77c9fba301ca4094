/** The names handle_global.cc gives to globalised symbols. */
module GlobalNames {
  import opened Text

  function GlobalNamePrefix(stack: nat): string { "_GLOBAL_" + Decimal(stack) + "_" }
  function GlobalName(iden: string, stack: nat): string { GlobalNamePrefix(stack) + iden + "_I" }
  function ArrayName(iden: string, number: nat): string { "_GLOBAL_" + iden + "_" + Decimal(number) + "_A" }
  function TypeName(number: nat): string { "_GLOBAL_" + Decimal(number) + "_T" }
  function GlobalOldName(iden: string): string { "global_" + iden }

  /** The four families, spelt out for one call each. */
  lemma NamesSpelt()
    ensures GlobalName("errno", 0) == "_GLOBAL_0_errno_I" && GlobalName("x", 12) == "_GLOBAL_12_x_I"
    ensures ArrayName("table", 12) == "_GLOBAL_table_12_A" && TypeName(3) == "_GLOBAL_3_T" && GlobalOldName("x") == "global_x"
  {
    assert Decimal(0) == "0" && Decimal(3) == "3" && Decimal(1) == "1";
    assert Decimal(12) == Decimal(1) + "2" == "12";
  }

  // ---------- Injectivity ----------

  lemma SplitPrefix(p: string, a: string, b: string)
    requires p + a == p + b
    ensures a == b
  {
    assert a == (p + a)[|p|..] && b == (p + b)[|p|..];
  }

  lemma SplitSuffix(a: string, b: string, p: string)
    requires a + p == b + p
    ensures a == b
  {
    assert |a| == |b|;
    assert a == (a + p)[..|a|] && b == (b + p)[..|b|];
  }

  /** Two runs of digits, each behind the same non-digit, can be told apart from the right. */
  lemma DigitRunsSplitRight(x: string, y: string, stop: char, a: string, b: string)
    requires AllDigits(a) && AllDigits(b) && !IsDigit(stop)
    requires x + [stop] + a == y + [stop] + b
    ensures a == b && x == y
  {
    var s := x + [stop] + a;
    assert s[|x|] == stop && s[|y|] == stop;
    assert |x| == |y|;
    assert x == s[..|x|] && y == s[..|y|] && a == s[|x| + 1..] && b == s[|y| + 1..];
  }

  lemma GlobalNameInjective(i: string, s: nat, j: string, t: nat)
    requires GlobalName(i, s) == GlobalName(j, t)
    ensures i == j && s == t
  {
    assert GlobalName(i, s) == "_GLOBAL_" + (Decimal(s) + ['_'] + (i + "_I"));
    assert GlobalName(j, t) == "_GLOBAL_" + (Decimal(t) + ['_'] + (j + "_I"));
    SplitPrefix("_GLOBAL_", Decimal(s) + ['_'] + (i + "_I"), Decimal(t) + ['_'] + (j + "_I"));
    DigitRunsSplit(Decimal(s), Decimal(t), '_', i + "_I", j + "_I");
    DecimalInjective(s, t);
    SplitSuffix(i, j, "_I");
  }

  lemma ArrayNameInjective(i: string, m: nat, j: string, n: nat)
    requires ArrayName(i, m) == ArrayName(j, n)
    ensures i == j && m == n
  {
    assert ArrayName(i, m) == ("_GLOBAL_" + i + ['_'] + Decimal(m)) + "_A";
    assert ArrayName(j, n) == ("_GLOBAL_" + j + ['_'] + Decimal(n)) + "_A";
    SplitSuffix("_GLOBAL_" + i + ['_'] + Decimal(m), "_GLOBAL_" + j + ['_'] + Decimal(n), "_A");
    DigitRunsSplitRight("_GLOBAL_" + i, "_GLOBAL_" + j, '_', Decimal(m), Decimal(n));
    DecimalInjective(m, n);
    SplitPrefix("_GLOBAL_", i, j);
  }

  lemma TypeNameInjective(m: nat, n: nat)
    requires TypeName(m) == TypeName(n)
    ensures m == n
  {
    SplitSuffix("_GLOBAL_" + Decimal(m), "_GLOBAL_" + Decimal(n), "_T");
    SplitPrefix("_GLOBAL_", Decimal(m), Decimal(n));
    DecimalInjective(m, n);
  }

  // ---------- Runs of calls ----------

  /** A call to one of the four name builders. */
  datatype Call = Name(iden: string, stack: nat) | NewArray(iden: string) | NewType | OldName(iden: string)

  function ArrayCalls(calls: seq<Call>): nat {
    if calls == [] then 0 else ArrayCalls(calls[..|calls| - 1]) + (if calls[|calls| - 1].NewArray? then 1 else 0)
  }

  function TypeCalls(calls: seq<Call>): nat {
    if calls == [] then 0 else TypeCalls(calls[..|calls| - 1]) + (if calls[|calls| - 1].NewType? then 1 else 0)
  }

  /** The name that call `i` of the run returns; the two counters start at 0 and live as long as the process. */
  function NameReturned(calls: seq<Call>, i: nat): string
    requires i < |calls|
  {
    match calls[i]
    case Name(iden, stack) => GlobalName(iden, stack)
    case NewArray(iden) => ArrayName(iden, ArrayCalls(calls[..i]))
    case NewType => TypeName(TypeCalls(calls[..i]))
    case OldName(iden) => GlobalOldName(iden)
  }

  lemma {:induction false} CountersGrow(calls: seq<Call>, i: nat, j: nat)
    requires i <= j <= |calls|
    ensures ArrayCalls(calls[..i]) <= ArrayCalls(calls[..j]) && TypeCalls(calls[..i]) <= TypeCalls(calls[..j])
    ensures i < j && calls[i].NewArray? ==> ArrayCalls(calls[..i]) < ArrayCalls(calls[..j])
    ensures i < j && calls[i].NewType? ==> TypeCalls(calls[..i]) < TypeCalls(calls[..j])
    decreases j
  {
    if i < j {
      assert calls[..j][..j - 1] == calls[..j - 1];
      CountersGrow(calls, i, j - 1);
    }
  }

  /** The last two characters tell the generated families apart, the first one the old names. */
  function Family(c: Call): string {
    match c case Name(_, _) => "_I" case NewArray(_) => "_A" case NewType => "_T" case OldName(_) => "g"
  }

  lemma FamilyShows(calls: seq<Call>, i: nat)
    requires i < |calls|
    ensures var n := NameReturned(calls, i);
            && |n| >= 2
            && (if calls[i].OldName? then n[0] == 'g' else n[0] == '_' && n[|n| - 1] == Family(calls[i])[1])
  {
  }

  /** Two calls of one run return the same name only if they are the same request for an existing name. */
  lemma NamesNeverClash(calls: seq<Call>, i: nat, j: nat)
    requires i < j < |calls| && NameReturned(calls, i) == NameReturned(calls, j)
    ensures calls[i] == calls[j] && !calls[i].NewArray? && !calls[i].NewType?
  {
    FamilyShows(calls, i);
    FamilyShows(calls, j);
    CountersGrow(calls, i, j);
    match calls[i]
    case Name(a, s) => GlobalNameInjective(a, s, calls[j].iden, calls[j].stack);
    case NewArray(a) => ArrayNameInjective(a, ArrayCalls(calls[..i]), calls[j].iden, ArrayCalls(calls[..j]));
    case NewType => TypeNameInjective(TypeCalls(calls[..i]), TypeCalls(calls[..j]));
    case OldName(a) => SplitPrefix("global_", a, calls[j].iden);
  }

  /** Each family counts from 0, on its own. */
  lemma NumbersSpelt(iden: string)
    ensures var calls := [NewArray(iden), NewType, NewArray(iden), NewType];
            && NameReturned(calls, 0) == ArrayName(iden, 0) && NameReturned(calls, 1) == TypeName(0)
            && NameReturned(calls, 2) == ArrayName(iden, 1) && NameReturned(calls, 3) == TypeName(1)
  {
    var calls := [NewArray(iden), NewType, NewArray(iden), NewType];
    assert calls[..0] == [] && calls[..1][..0] == [] && calls[..2][..1] == calls[..1] && calls[..3][..2] == calls[..2];
    assert ArrayCalls(calls[..0]) == 0 && ArrayCalls(calls[..1]) == 1 && ArrayCalls(calls[..2]) == 1;
    assert TypeCalls(calls[..1]) == 0 && TypeCalls(calls[..2]) == 1 && TypeCalls(calls[..3]) == 1;
  }

  /** The two static counters. */
  class NameSource {
    var globalArrayNumber: nat
    var globalTypeNumber: nat
    ghost var calls: seq<Call>    // every call so far

    ghost predicate Valid()
      reads this
    {
      globalArrayNumber == ArrayCalls(calls) && globalTypeNumber == TypeCalls(calls)
    }

    constructor ()
      ensures Valid() && calls == []
    {
      globalArrayNumber, globalTypeNumber, calls := 0, 0, [];
    }

    lemma Prefix(call: Call)
      ensures (calls + [call])[..|calls|] == calls
    {
    }

    method NewArrayName(iden: string) returns (name: string)
      requires Valid()
      modifies this
      ensures Valid() && calls == old(calls) + [NewArray(iden)]
      ensures name == NameReturned(calls, |calls| - 1)
    {
      Prefix(NewArray(iden));
      name := ArrayName(iden, globalArrayNumber);
      globalArrayNumber := globalArrayNumber + 1;
      calls := calls + [NewArray(iden)];
    }

    method NewTypeName() returns (name: string)
      requires Valid()
      modifies this
      ensures Valid() && calls == old(calls) + [NewType]
      ensures name == NameReturned(calls, |calls| - 1)
    {
      Prefix(NewType);
      name := TypeName(globalTypeNumber);
      globalTypeNumber := globalTypeNumber + 1;
      calls := calls + [NewType];
    }
  }
}
