/** The two in-place rewrites of initialisers in handle_global.cc. Both search again from the start of the text
    after every replacement. */
module GlobalRewrite {
  import opened Text
  import opened GlobalNames

  // ---------- global_replace_toplevel ----------

  const GLB := "_GLOBAL_0_"

  /** One pass over `s`: the number of every occurrence of `_GLOBAL_0_` becomes `d`, even where two occurrences
      share an underscore; nothing else changes. */
  function Renumbered(s: string, k: nat, d: string): string
    requires k <= |s|
    decreases |s| - k
  {
    if k == |s| then ""
    else (if At(s, GLB, k - 8) then d else [s[k]]) + Renumbered(s, k + 1, d)
  }

  lemma AtGlb(s: string, i: int)
    ensures At(s, GLB, i) <==>
            0 <= i && i + 10 <= |s| && s[i] == '_' && s[i + 1] == 'G' && s[i + 2] == 'L' && s[i + 3] == 'O' && s[i + 4] == 'B' &&
            s[i + 5] == 'A' && s[i + 6] == 'L' && s[i + 7] == '_' && s[i + 8] == '0' && s[i + 9] == '_'
  {
    if 0 <= i && i + 10 <= |s| {
      var w := s[i..i + 10];
      assert w == [s[i], s[i + 1], s[i + 2], s[i + 3], s[i + 4], s[i + 5], s[i + 6], s[i + 7], s[i + 8], s[i + 9]];
      assert GLB == ['_', 'G', 'L', 'O', 'B', 'A', 'L', '_', '0', '_'];
    }
  }

  /** An occurrence has exactly one digit, in its ninth place. */
  lemma OneDigit(s: string, i: int)
    requires At(s, GLB, i)
    ensures 0 <= i && i + 10 <= |s| && IsDigit(s[i + 8])
    ensures forall k :: i <= k < i + 10 && k != i + 8 ==> !IsDigit(s[k])
  {
    AtGlb(s, i);
  }

  lemma Overlap(s: string, i: int, j: int)
    requires At(s, GLB, i) && At(s, GLB, j) && i < j
    ensures i + 9 <= j
  {
    OneDigit(s, i);
    OneDigit(s, j);
    assert IsDigit(s[i + 8]);
  }

  /** The text with the first occurrence's number replaced. */
  function Replaced(s: string, loc: nat, d: string): string
    requires loc + 10 <= |s|
  {
    s[..loc + 8] + d + s[loc + 9..]
  }

  ghost predicate FirstAt(s: string, loc: int) {
    At(s, GLB, loc) && forall k :: 0 <= k < loc ==> !At(s, GLB, k)
  }

  lemma OccurrencesBehind(s: string, loc: nat, d: string, i: int)
    requires loc + 10 <= |s| && loc + 8 + |d| <= i
    ensures At(Replaced(s, loc, d), GLB, i) <==> At(s, GLB, i + 1 - |d|)
  {
    var left, right := s[..loc + 8], s[loc + 9..];
    AtSuffix(left + d, right, GLB, i);
    assert s == s[..loc + 9] + right;
    AtSuffix(s[..loc + 9], right, GLB, i + 1 - |d|);
  }

  lemma ReplacedNumber(s: string, loc: nat, d: string)
    requires loc + 10 <= |s|
    ensures |Replaced(s, loc, d)| == |s| + |d| - 1
    ensures Replaced(s, loc, d)[loc + 7] == s[loc + 7] && Replaced(s, loc, d)[loc + 8 + |d|] == s[loc + 9]
    ensures Replaced(s, loc, d)[loc + 8..loc + 8 + |d|] == d
  {
  }

  lemma SameFront(s: string, s': string, pat: string, i: int, n: nat)
    requires n <= |s| && n <= |s'| && s[..n] == s'[..n] && i + |pat| <= n
    ensures At(s, pat, i) <==> At(s', pat, i)
  {
    if i >= 0 {
      var w, w' := s[i..i + |pat|], s'[i..i + |pat|];
      forall k | 0 <= k < |pat| ensures w[k] == w'[k] { assert w[k] == s[..n][i + k] && w'[k] == s'[..n][i + k]; }
      assert w == w';
    }
  }

  lemma NoneInFront(s: string, loc: nat, d: string, i: int)
    requires FirstAt(s, loc) && i + 10 <= loc + 8
    ensures loc + 10 <= |s| && !At(Replaced(s, loc, d), GLB, i)
  {
    OneDigit(s, loc);
    var s' := Replaced(s, loc, d);
    assert s'[..loc + 8] == s[..loc + 8];
    SameFront(s, s', GLB, i, loc + 8);
    assert i >= 0 ==> !At(s, GLB, i);
  }

  lemma NoneInNumber(s: string, loc: nat, d: string, i: int)
    requires loc + 10 <= |s| && s[loc + 7] == s[loc + 9] == '_' && AllDigits(d) && |d| > 0 && d[0] != '0'
    requires loc + 8 < i + 10 && i < loc + 8 + |d|
    ensures !At(Replaced(s, loc, d), GLB, i)
  {
    ReplacedNumber(s, loc, d);
    hide Replaced, At;
    if At(Replaced(s, loc, d), GLB, i) {
      TouchesNumber(Replaced(s, loc, d), i, loc + 8, d);
      assert false;
    }
  }

  lemma OccurrencesBefore(s: string, loc: nat, d: string, i: int)
    requires FirstAt(s, loc) && i < loc + 8 + |d| && AllDigits(d) && |d| > 0 && d[0] != '0'
    ensures loc + 10 <= |s| && !At(Replaced(s, loc, d), GLB, i)
  {
    AtGlb(s, loc);
    if i + 10 <= loc + 8 { NoneInFront(s, loc, d, i); } else { NoneInNumber(s, loc, d, i); }
  }

  /** Replacing the first occurrence removes it, adds none and shifts the others. */
  lemma OccurrencesAfter(s: string, loc: nat, d: string, i: int)
    requires FirstAt(s, loc) && AllDigits(d) && |d| > 0 && d[0] != '0'
    ensures loc + 10 <= |s|
    ensures At(Replaced(s, loc, d), GLB, i) <==> loc + 8 + |d| <= i && At(s, GLB, i + 1 - |d|)
  {
    OneDigit(s, loc);
    if loc + 8 + |d| <= i { OccurrencesBehind(s, loc, d, i); } else { OccurrencesBefore(s, loc, d, i); }
  }

  /** A run of digits that does not start with 0 and is closed by non-digits touches no occurrence. */
  lemma TouchesNumber(s: string, i: int, at: nat, d: string)
    requires At(s, GLB, i) && AllDigits(d) && |d| > 0 && d[0] != '0'
    requires at + |d| < |s| && at > 0 && !IsDigit(s[at - 1]) && !IsDigit(s[at + |d|])
    requires s[at..at + |d|] == d
    ensures i + 10 <= at || at + |d| <= i
  {
    OneDigit(s, i);
    AtGlb(s, i);
    forall k | at <= k < at + |d| ensures IsDigit(s[k]) { assert s[k] == s[at..at + |d|][k - at]; }
    assert s[at] == s[at..at + |d|][0];
  }

  lemma RenumberStep(s: string, k: nat, d: string)
    requires k < |s|
    ensures Renumbered(s, k, d) == (if At(s, GLB, k - 8) then d else [s[k]]) + Renumbered(s, k + 1, d)
  {
  }

  lemma {:induction false} Unchanged(s: string, k: nat, m: nat, d: string)
    requires k <= m <= |s| && forall i :: k - 8 <= i < m - 8 ==> !At(s, GLB, i)
    ensures Renumbered(s, k, d) == s[k..m] + Renumbered(s, m, d)
    decreases m - k
  {
    hide Renumbered, At;
    if k == m {
      assert s[k..m] == "";
    } else {
      Unchanged(s, k + 1, m, d);
      RenumberStep(s, k, d);
      assert s[k..m] == [s[k]] + s[k + 1..m];
      Associate([s[k]], s[k + 1..m], Renumbered(s, m, d));
    }
  }

  lemma ShiftedPlace(s: string, loc: nat, d: string, k: nat)
    requires FirstAt(s, loc) && loc + 9 <= k < |s| && AllDigits(d) && |d| > 0 && d[0] != '0'
    ensures loc + 10 <= |s| && |Replaced(s, loc, d)| == |s| + |d| - 1
    ensures Replaced(s, loc, d)[k + |d| - 1] == s[k]
    ensures At(Replaced(s, loc, d), GLB, k + |d| - 1 - 8) <==> At(s, GLB, k - 8)
  {
    OneDigit(s, loc);
    OccurrencesAfter(s, loc, d, k + |d| - 9);
    if At(s, GLB, k - 8) { Overlap(s, loc, k - 8); }
  }

  ghost predicate Alike(s: string, s': string, shift: nat, j: nat)
    requires j < |s| && |s'| == |s| + shift
  {
    s'[j + shift] == s[j] && (At(s', GLB, j + shift - 8) <==> At(s, GLB, j - 8))
  }

  /** Texts that read alike from `k` on, `shift` places apart, are renumbered alike. */
  lemma {:induction false} Shifted(s: string, s': string, shift: nat, d: string, k: nat)
    requires k <= |s| && |s'| == |s| + shift
    requires forall j: nat :: k <= j < |s| ==> Alike(s, s', shift, j)
    ensures Renumbered(s', k + shift, d) == Renumbered(s, k, d)
    decreases |s| - k
  {
    hide At;
    if k < |s| {
      hide Renumbered;
      Shifted(s, s', shift, d, k + 1);
      assert Alike(s, s', shift, k);
      RenumberStep(s, k, d);
      RenumberStep(s', k + shift, d);
    }
  }

  lemma AlikeBehind(s: string, loc: nat, d: string, shift: nat)
    requires FirstAt(s, loc) && AllDigits(d) && |d| == shift + 1 && d[0] != '0'
    ensures loc + 10 <= |s| && |Replaced(s, loc, d)| == |s| + shift
    ensures forall j: nat :: loc + 9 <= j < |s| ==> Alike(s, Replaced(s, loc, d), shift, j)
  {
    OneDigit(s, loc);
    var s' := Replaced(s, loc, d);
    hide At, FirstAt, IsDigit, AllDigits;
    forall j: nat | loc + 9 <= j < |s| ensures Alike(s, s', shift, j) { ShiftedPlace(s, loc, d, j); }
  }

  lemma ShiftedBehind(s: string, loc: nat, d: string)
    requires FirstAt(s, loc) && AllDigits(d) && |d| > 0 && d[0] != '0'
    ensures loc + 10 <= |s| && loc + 8 + |d| <= |Replaced(s, loc, d)|
    ensures Renumbered(Replaced(s, loc, d), loc + 8 + |d|, d) == Renumbered(s, loc + 9, d)
  {
    AlikeBehind(s, loc, d, |d| - 1);
    hide At, Renumbered, FirstAt, IsDigit, AllDigits, Replaced, Alike;
    Shifted(s, Replaced(s, loc, d), |d| - 1, d, loc + 9);
  }

  lemma ReplaceFirst(s: string, loc: nat, d: string)
    requires FirstAt(s, loc) && AllDigits(d) && |d| > 0 && d[0] != '0'
    ensures loc + 10 <= |s| && Renumbered(Replaced(s, loc, d), 0, d) == Renumbered(s, 0, d)
  {
    hide Renumbered;
    OneDigit(s, loc);
    var s', m := Replaced(s, loc, d), loc + 8;
    var rest := Renumbered(s, m + 1, d);
    Unchanged(s, 0, m, d);
    RenumberStep(s, m, d);
    forall i | 0 <= i < loc + |d| ensures !At(s', GLB, i) { OccurrencesAfter(s, loc, d, i); }
    Unchanged(s', 0, m + |d|, d);
    ShiftedBehind(s, loc, d);
    hide At;
    assert s'[0..m + |d|] == s[0..m] + d;
    Associate(s[0..m], d, rest);
  }

  /** `global_replace_toplevel`: terminates, leaves no occurrence for a positive stack number, and changes nothing but
      the numbers of the occurrences that were there. */
  method GlobalReplaceToplevel(text: string, stack: nat) returns (init: string)
    ensures stack == 0 ==> init == text
    ensures stack > 0 ==> init == Renumbered(text, 0, Decimal(stack))
    ensures stack > 0 ==> forall i :: !At(init, GLB, i)
  {
    init := text;
    var glb, rbuf := GlobalNamePrefix(0), GlobalNamePrefix(stack);
    if stack == 0 {
      return;
    }
    ghost var d := Decimal(stack);
    assert glb == GLB by { assert Decimal(0) == "0"; }
    assert rbuf == "_GLOBAL_" + d + "_";
    var loc := Find(init, glb, 0);
    while loc != -1
      invariant Renumbered(init, 0, d) == Renumbered(text, 0, d)
      invariant loc == Find(init, glb, 0)
      decreases if loc == -1 then 0 else |init| - loc
    {
      ReplaceFirst(init, loc, d);
      SpliceIsReplaced(init, loc, d);
      ghost var before := init;
      init := Splice(init, loc, |glb|, rbuf);
      var next := Find(init, glb, 0);
      if next != -1 { OccurrencesAfter(before, loc, d, next); }
      loc := next;
    }
    Unchanged(init, 0, |init|, d);
    assert init[0..|init|] == init && Renumbered(init, |init|, d) == "";
  }

  lemma SpliceIsReplaced(s: string, loc: nat, d: string)
    requires At(s, GLB, loc)
    ensures loc + 10 <= |s| && Splice(s, loc, |GLB|, "_GLOBAL_" + d + "_") == Replaced(s, loc, d)
  {
    AtGlb(s, loc);
    assert s[loc..loc + 8] == "_GLOBAL_";
    assert s[..loc + 8] == s[..loc] + s[loc..loc + 8];
    assert s[loc + 9..] == [s[loc + 9]] + s[loc + 10..];
  }

  /** Renumbering a stack-0 name gives the name for `stack` iff the prefix is the only occurrence in it. */
  lemma NameRenumbered(iden: string, stack: nat)
    requires stack > 0
    ensures Renumbered(GlobalName(iden, 0), 0, Decimal(stack)) == GlobalName(iden, stack) <==>
            forall i :: i > 0 ==> !At(GlobalName(iden, 0), GLB, i)
  {
    var s, d := GlobalName(iden, 0), Decimal(stack);
    assert Decimal(0) == "0";
    assert s == GLB + (iden + "_I") && s[0..10] == GLB;
    ReplaceFirst(s, 0, d);
    var s' := Replaced(s, 0, d);
    assert s[..8] == "_GLOBAL_" && s[9..] == "_" + iden + "_I";
    assert s' == GlobalName(iden, stack);
    if forall i :: i > 0 ==> !At(s, GLB, i) {
      forall i ensures !At(s', GLB, i) { OccurrencesAfter(s, 0, d, i); }
      Unchanged(s', 0, |s'|, d);
      assert s'[0..|s'|] == s' && Renumbered(s', |s'|, d) == "";
    } else {
      var i :| i > 0 && At(s, GLB, i);
      Overlap(s, 0, i);
      OccurrencesAfter(s, 0, d, i + |d| - 1);
      var r := GlobalRenumberedHasNone(s, stack);
    }
  }

  /** What the rewrite of `s` is, with no occurrence left in it. */
  lemma {:induction false} GlobalRenumberedHasNone(s: string, stack: nat) returns (r: string)
    requires stack > 0
    ensures r == Renumbered(s, 0, Decimal(stack)) && forall i :: !At(r, GLB, i)
    decreases |s| - (if Find(s, GLB, 0) == -1 then |s| else Find(s, GLB, 0))
  {
    var d, loc := Decimal(stack), Find(s, GLB, 0);
    if loc == -1 {
      Unchanged(s, 0, |s|, d);
      assert s[0..|s|] == s && Renumbered(s, |s|, d) == "";
      r := s;
    } else {
      ReplaceFirst(s, loc, d);
      var s' := Replaced(s, loc, d);
      var next := Find(s', GLB, 0);
      if next != -1 { OccurrencesAfter(s, loc, d, next); }
      r := GlobalRenumberedHasNone(s', stack);
    }
  }

  // ---------- global_old_replace_toplevel ----------

  const OLD := "[get_stack_id()]"

  /** `global_old_name_postfix(stack)`. */
  function StackPostfix(stack: nat): string { "[" + Decimal(stack) + "]" }

  /** The index is the stack number's numeral between brackets. */
  lemma StackPostfixMeans(stack: nat)
    ensures var p := StackPostfix(stack);
            && |p| >= 3 && p[0] == '[' && p[|p| - 1] == ']'
            && AllDigits(p[1..|p| - 1]) && Numeral(p[1..|p| - 1]) == stack && (stack > 0 ==> p[1] != '0')
  {
    var p := StackPostfix(stack);
    assert p[1..|p| - 1] == Decimal(stack);
    NumeralOfDecimal(stack);
  }

  /** One left-to-right pass that replaces every occurrence of `[get_stack_id()]`. */
  function Indexed(s: string, piece: string): string {
    if |s| < 16 then s
    else if s[..16] == OLD then piece + Indexed(s[16..], piece)
    else [s[0]] + Indexed(s[1..], piece)
  }

  lemma {:induction false} IndexedFirst(s: string, piece: string, loc: nat)
    requires At(s, OLD, loc) && forall k :: 0 <= k < loc ==> !At(s, OLD, k)
    ensures Indexed(s, piece) == s[..loc] + (piece + Indexed(s[loc + 16..], piece))
  {
    if loc == 0 {
      assert s[..0] == "";
    } else {
      var u := s[1..];
      assert !At(s, OLD, 0) && s == [s[0]] + u;
      forall k | 0 <= k ensures At(u, OLD, k) <==> At(s, OLD, k + 1) { AtSuffix([s[0]], u, OLD, k + 1); }
      IndexedFirst(u, piece, loc - 1);
      assert s[..loc] == [s[0]] + u[..loc - 1] && u[loc - 1 + 16..] == s[loc + 16..];
      Associate([s[0]], u[..loc - 1], piece + Indexed(s[loc + 16..], piece));
    }
  }

  lemma {:induction false} IndexedNone(s: string, piece: string)
    requires forall k :: !At(s, OLD, k)
    ensures Indexed(s, piece) == s
  {
    if |s| >= 16 {
      assert !At(s, OLD, 0) && s == [s[0]] + s[1..];
      forall k ensures !At(s[1..], OLD, k) { if 0 <= k { AtSuffix([s[0]], s[1..], OLD, k + 1); } }
      IndexedNone(s[1..], piece);
    }
  }

  /** One index, spelt out. */
  lemma IndexedSpelt()
    ensures Indexed("x[get_stack_id()];", "[3]") == "x[3];"
  {
    var s := "x[get_stack_id()];";
    assert s[1..] == "[get_stack_id()];" && s[1..][..16] == OLD && s[1..][16..] == ";";
    assert s[..16][0] == 'x';
    assert Indexed(s[1..], "[3]") == "[3]" + Indexed(";", "[3]") == "[3];";
    assert Indexed(s, "[3]") == ['x'] + "[3];";
  }

  /** An occurrence has its only opening bracket at its start, and a letter behind it. */
  lemma NotAtOld(s: string, i: int, k: int)
    requires 0 <= i <= k < i + 16 && k < |s|
    requires (k == i && s[k] != '[') || (k == i + 1 && s[k] != 'g') || (k > i && s[k] == '[')
    ensures !At(s, OLD, i)
  {
    if i + 16 <= |s| {
      assert s[i..i + 16][k - i] == s[k];
      assert OLD[0] == '[' && OLD[1] == 'g' && forall c :: 1 <= c < 16 ==> OLD[c] != '[';
    }
  }

  lemma AtPrefix(a: string, b: string, pat: string, k: nat)
    requires k + |pat| <= |a|
    ensures At(a + b, pat, k) <==> At(a, pat, k)
  {
    assert (a + b)[k..k + |pat|] == a[k..k + |pat|];
  }

  /** A replaced index makes no new occurrence, neither inside nor across its edges. */
  lemma OldOccurrences(left: string, piece: string, right: string, k: nat)
    requires k < |left| ==> !At(left + OLD + right, OLD, k)
    requires |piece| > 1 && piece[0] == '[' && piece[1] != 'g' && forall c :: 1 <= c < |piece| ==> piece[c] != '['
    requires k < |left| + |piece|
    ensures !At(left + piece + right, OLD, k)
  {
    var s' := left + piece + right;
    if k + 16 <= |left| {
      AtPrefix(left, OLD + right, OLD, k);
      AtPrefix(left, piece + right, OLD, k);
      Associate(left, OLD, right);
      Associate(left, piece, right);
    } else if k < |left| {
      assert s'[|left|] == piece[0];
      NotAtOld(s', k, |left|);
    } else if k == |left| {
      assert s'[k + 1] == piece[1];
      NotAtOld(s', k, k + 1);
    } else {
      assert s'[k] == piece[k - |left|];
      NotAtOld(s', k, k);
    }
  }

  lemma StackPostfixShape(stack: nat)
    ensures var piece := StackPostfix(stack);
            |piece| > 1 && piece[0] == '[' && piece[1] != 'g' && forall c :: 1 <= c < |piece| ==> piece[c] != '['
  {
    assert IsDigit(Decimal(stack)[0]);
  }

  /** Half-way: no occurrence starts in `done`, and one pass over `text` would have produced `done` so far. */
  ghost predicate HalfWay(text: string, stack: nat, done: string, todo: string) {
    && (forall k :: 0 <= k < |done| ==> !At(done + todo, OLD, k))
    && Indexed(text, StackPostfix(stack)) == done + Indexed(todo, StackPostfix(stack))
  }

  /** The text before the first occurrence, and after it. */
  lemma OldSplit(s: string, todo: string, loc: nat) returns (left: string, right: string)
    requires At(todo, OLD, loc)
    ensures left == todo[..loc] && right == todo[loc + 16..] && todo == left + OLD + right
  {
    left, right := todo[..loc], todo[loc + 16..];
    assert todo == todo[..loc] + todo[loc..loc + 16] + todo[loc + 16..];
  }

  lemma OldStepScan(done: string, left: string, piece: string, right: string)
    requires forall k :: 0 <= k < |done| ==> !At(done + (left + OLD + right), OLD, k)
    requires forall k :: 0 <= k < |left| ==> !At(left + OLD + right, OLD, k)
    requires |piece| > 1 && piece[0] == '[' && piece[1] != 'g' && forall c :: 1 <= c < |piece| ==> piece[c] != '['
    ensures forall k :: 0 <= k < |done + left + piece| ==> !At((done + left + piece) + right, OLD, k)
  {
    Associate(done, left + OLD, right);
    Associate(done, left, OLD);
    forall k: nat | k < |done + left + piece| ensures !At((done + left + piece) + right, OLD, k) {
      if |done| <= k < |done| + |left| { AtSuffix(done, left + OLD + right, OLD, k); }
      OldOccurrences(done + left, piece, right, k);
    }
  }

  lemma OldStep(text: string, stack: nat, done: string, todo: string, loc: nat) returns (done': string, todo': string)
    requires HalfWay(text, stack, done, todo) && At(todo, OLD, loc) && forall k :: 0 <= k < loc ==> !At(todo, OLD, k)
    ensures HalfWay(text, stack, done', todo') && |todo'| < |todo|
    ensures Splice(done + todo, |done| + loc, 16, StackPostfix(stack)) == done' + todo'
  {
    var piece := StackPostfix(stack);
    var left, right := OldSplit(done + todo, todo, loc);
    done', todo' := (done + left) + piece, right;
    StackPostfixShape(stack);
    IndexedFirst(todo, piece, loc);
    OldStepScan(done, left, piece, right);
    hide Indexed, StackPostfix, At;
    Associate(done, left, piece + Indexed(right, piece));
    Associate(done + left, piece, Indexed(right, piece));
    assert (done + todo)[..|done| + loc] == done + left && (done + todo)[|done| + loc + 16..] == right;
  }

  lemma OldEnd(text: string, stack: nat, done: string, todo: string)
    requires HalfWay(text, stack, done, todo) && forall k: nat :: !At(done + todo, OLD, k)
    ensures done + todo == Indexed(text, StackPostfix(stack))
  {
    forall k ensures !At(todo, OLD, k) { if 0 <= k { AtSuffix(done, todo, OLD, |done| + k); } }
    IndexedNone(todo, StackPostfix(stack));
  }

  lemma FirstInTodo(text: string, stack: nat, done: string, todo: string, loc: nat)
    requires HalfWay(text, stack, done, todo)
    requires At(done + todo, OLD, loc) && forall k :: 0 <= k < loc ==> !At(done + todo, OLD, k)
    ensures |done| <= loc && At(todo, OLD, loc - |done|) && forall k :: 0 <= k < loc - |done| ==> !At(todo, OLD, k)
  {
    AtSuffix(done, todo, OLD, loc);
    forall k | 0 <= k < loc - |done| ensures !At(todo, OLD, k) { AtSuffix(done, todo, OLD, |done| + k); }
  }

  lemma OldStart(text: string, stack: nat)
    ensures HalfWay(text, stack, "", text) && "" + text == text
  {
    assert "" + Indexed(text, StackPostfix(stack)) == Indexed(text, StackPostfix(stack));
  }

  /** `global_old_replace_toplevel`: terminates, leaves no occurrence, and does what one pass would. */
  method GlobalOldReplaceToplevel(text: string, stack: nat) returns (init: string)
    ensures init == Indexed(text, StackPostfix(stack))
    ensures forall i :: !At(init, OLD, i)
  {
    init := text;
    var glb, rbuf := OLD, StackPostfix(stack);
    ghost var done, todo := "", text;
    OldStart(text, stack);
    hide Indexed, StackPostfix, HalfWay, At;
    var loc := Find(init, glb, 0);
    while loc != -1
      invariant init == done + todo && HalfWay(text, stack, done, todo)
      invariant loc == Find(init, glb, 0)
      decreases |todo|
    {
      FirstInTodo(text, stack, done, todo, loc);
      AtBounds(init, OLD, loc);
      done, todo := OldStep(text, stack, done, todo, loc - |done|);
      init := Splice(init, loc, |glb|, rbuf);
      loc := Find(init, glb, 0);
    }
    OldEnd(text, stack, done, todo);
    AtNowhere(init, OLD);
  }

  lemma AtBounds(s: string, pat: string, i: int)
    requires At(s, pat, i)
    ensures 0 <= i && i + |pat| <= |s|
  {
  }

  lemma AtNowhere(s: string, pat: string)
    requires forall i :: 0 <= i ==> !At(s, pat, i)
    ensures forall i :: !At(s, pat, i)
  {
  }
}
