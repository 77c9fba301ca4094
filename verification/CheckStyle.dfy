/** The loops of check-style.py: writing and parsing patch sets, and the pass that evens out trailing blanks. */
module CheckStyle {
  import opened Text
  import opened PatchSet

  // ---------- Loops over files ----------

  method WritePatchset(patches: seq<Patch>) returns (file: seq<string>)
    ensures file == Write(patches)
  {
    file := [];
    for i := 0 to |patches|
      invariant file + Write(patches[i..]) == Write(patches)
    {
      var p := patches[i];
      ghost var before, rest := file, Write(patches[i + 1..]);
      assert patches[i..][0] == p && patches[i..][1..] == patches[i + 1..];
      var lines := WritePatch(p);
      file := file + lines;
      hide WriteChunks;
      assert Write(patches[i..]) == lines + rest by {
        Associate(["--- " + p.src], ["+++ " + p.dst] + WriteChunks(p.chunks), rest);
        Associate(["+++ " + p.dst], WriteChunks(p.chunks), rest);
      }
      Associate(before, lines, rest);
    }
  }

  method WritePatch(p: Patch) returns (file: seq<string>)
    ensures file == ["--- " + p.src] + (["+++ " + p.dst] + WriteChunks(p.chunks))
  {
    file := ["--- " + p.src];
    file := file + ["+++ " + p.dst];
    ghost var head := file;
    assert p.chunks[0..] == p.chunks;
    for j := 0 to |p.chunks|
      invariant file + WriteChunks(p.chunks[j..]) == head + WriteChunks(p.chunks)
    {
      var c := p.chunks[j];
      ghost var before, rest := file, WriteChunks(p.chunks[j + 1..]);
      assert p.chunks[j..][0] == c && p.chunks[j..][1..] == p.chunks[j + 1..];
      var lines := WriteChunk(c);
      file := file + lines;
      hide WriteLines, HeaderText;
      ChunksLayout(p.chunks[j..], []);
      assert WriteChunks(p.chunks[j..]) == lines + rest by {
        assert WriteChunks(p.chunks[j..]) + [] == WriteChunks(p.chunks[j..]) && rest + [] == rest;
        Associate([HeaderText(c)], WriteLines(c.lines), rest);
      }
      Associate(before, lines, rest);
    }
    assert p.chunks[|p.chunks|..] == [] && file + [] == file;
    Associate(["--- " + p.src], ["+++ " + p.dst], WriteChunks(p.chunks));
  }

  method WriteChunk(c: Chunk) returns (file: seq<string>)
    ensures file == [HeaderText(c)] + WriteLines(c.lines)
  {
    file := [HeaderText(c)];
    for k := 0 to |c.lines|
      invariant file + WriteLines(c.lines[k..]) == [HeaderText(c)] + WriteLines(c.lines)
    {
      assert c.lines[k..][0] == c.lines[k] && c.lines[k..][1..] == c.lines[k + 1..];
      file := file + [LineText(c.lines[k])];
    }
  }

  /** `parse_patchset`; `None` is an exception. `current` says where the object `current_chunk` refers to is. */
  method ParsePatchsetLoop(file: seq<string>) returns (result: Option<seq<Patch>>)
    ensures result == ParsePatchset(file)
  {
    var patchset: seq<Patch> := [];
    var current: Option<(nat, nat)> := None;
    hide Classify;
    for i := 0 to |file|
      invariant Valid(Reading(patchset, current))
      invariant ParseFrom(Reading(patchset, current), file[i..]) == ParsePatchset(file)
    {
      assert file[i..][0] == file[i] && file[i..][1..] == file[i + 1..];
      var last := |patchset| - 1;
      match Classify(file[i]) {
        case SrcFile(name) =>
          patchset := patchset + [Patch(name, "", [])];
        case DstFile(name) =>
          if patchset == [] { return None; }
          patchset := patchset[last := patchset[last].(dst := name)];
        case Start(a, b) =>
          if patchset == [] { return None; }
          current := Some((last, |patchset[last].chunks|));
          patchset := patchset[last := patchset[last].(chunks := patchset[last].chunks + [Chunk(a, b, [])])];
        case Body(l) =>
          if current.None? { return None; }
          patchset := AddLine(patchset, current.value.0, current.value.1, l);
        case Unknown =>
          return None;
      }
    }
    return Some(patchset);
  }

  // ---------- Trailing blanks ----------

  predicate IsBlank(c: char) { c == ' ' || c == '\t' }

  /** `^(.*)([ \t]+)$`: the first group is greedy, so the second is the last character. */
  function TrailingBlank(s: string): Option<(string, string)> {
    if s != "" && IsBlank(s[|s| - 1]) then Some((s[..|s| - 1], s[|s| - 1..])) else None
  }

  /** Positions of the lines of one side. */
  function Side(kinds: seq<Kind>, side: Kind, k: nat): (ps: seq<nat>)
    requires k <= |kinds|
    ensures forall i :: 0 <= i < |ps| ==> k <= ps[i] < |kinds| && (kinds[ps[i]] == side || kinds[ps[i]] == Both)
    ensures forall i, j :: 0 <= i < j < |ps| ==> ps[i] < ps[j]
    decreases |kinds| - k
  {
    if k == |kinds| then []
    else (if kinds[k] == side || kinds[k] == Both then [k] else []) + Side(kinds, side, k + 1)
  }

  /** A side has exactly the lines of its own kind and those of both sides, in order. */
  lemma {:induction false} SideExact(kinds: seq<Kind>, side: Kind, k: nat, p: nat)
    requires k <= |kinds|
    ensures p in Side(kinds, side, k) <==> k <= p < |kinds| && (kinds[p] == side || kinds[p] == Both)
    decreases |kinds| - k
  {
    if k < |kinds| { SideExact(kinds, side, k + 1, p); }
  }

  ghost predicate Positions(ps: seq<nat>, n: nat) {
    (forall i :: 0 <= i < |ps| ==> ps[i] < n) && forall i, j :: 0 <= i < j < |ps| ==> ps[i] < ps[j]
  }

  /** One turn: the `i`-th destination line gets the `i`-th source line's last blank if that makes them equal. */
  function Evened(src: seq<nat>, dst: seq<nat>, texts: seq<string>, i: nat): seq<string>
    requires Positions(src, |texts|) && Positions(dst, |texts|) && i < |src| && i < |dst|
  {
    var m := TrailingBlank(texts[src[i]]);
    if m.Some? && m.value.0 == texts[dst[i]] then texts[dst[i] := texts[dst[i]] + m.value.1] else texts
  }

  /** The pass over one chunk; false when a source line has no destination line at its index. */
  function Pass(src: seq<nat>, dst: seq<nat>, texts: seq<string>, i: nat): (seq<string>, bool)
    requires Positions(src, |texts|) && Positions(dst, |texts|) && i <= |src|
    decreases |src| - i
  {
    if i == |src| then (texts, true)
    else if i >= |dst| then (texts, false)
    else Pass(src, dst, Evened(src, dst, texts, i), i + 1)
  }

  /** The texts just before turn `j` of a pass that stands at turn `i`. */
  function Before(src: seq<nat>, dst: seq<nat>, texts: seq<string>, i: nat, j: nat): (r: seq<string>)
    requires Positions(src, |texts|) && Positions(dst, |texts|) && i <= j <= |src| && j <= |dst|
    ensures |r| == |texts|
    decreases j - i
  {
    if i == j then texts else Before(src, dst, Evened(src, dst, texts, i), i + 1, j)
  }

  /** A line differs after the pass only if it is a destination line, the source line matched with it had exactly one
      blank more at that turn, and it got that blank and nothing else. */
  lemma {:induction false} PassMeaning(src: seq<nat>, dst: seq<nat>, texts: seq<string>, i: nat, k: nat)
    requires Positions(src, |texts|) && Positions(dst, |texts|) && i <= |src| && k < |texts|
    ensures var after := Pass(src, dst, texts, i).0;
            && |after| == |texts|
            && (after[k] != texts[k] ==>
                  exists j :: i <= j < |src| && j < |dst| && dst[j] == k &&
                    after[k] == Before(src, dst, texts, i, j)[src[j]] && |after[k]| == |texts[k]| + 1 &&
                    after[k] == texts[k] + [after[k][|texts[k]|]] && IsBlank(after[k][|texts[k]|]))
    ensures (forall j :: i <= j < |dst| ==> dst[j] != k) ==> Pass(src, dst, texts, i).0[k] == texts[k]
    decreases |src| - i
  {
    if i < |src| && i < |dst| {
      var texts' := Evened(src, dst, texts, i);
      PassMeaning(src, dst, texts', i + 1, k);
      var after := Pass(src, dst, texts, i).0;
      if texts'[k] != texts[k] {
        assert dst[i] == k;
        assert forall j :: i + 1 <= j < |dst| ==> dst[j] != k;
        var s := texts[src[i]];
        assert s == s[..|s| - 1] + s[|s| - 1..];
        assert after[k] == texts'[k] == s && Before(src, dst, texts, i, i) == texts;
      } else if after[k] != texts[k] {
        var j :| i + 1 <= j < |src| && j < |dst| && dst[j] == k && after[k] == Before(src, dst, texts', i + 1, j)[src[j]];
        assert Before(src, dst, texts, i, j) == Before(src, dst, texts', i + 1, j);
      }
    }
  }

  /** A destination text next to its source text: where the source has one more space or tab at its end and is equal
      otherwise, the source text; else the destination text. */
  function EvenText(s: string, d: string): string {
    if |s| == |d| + 1 && s[..|d|] == d && (s[|d|] == ' ' || s[|d|] == '\t') then s else d
  }

  lemma EvenedIs(src: seq<nat>, dst: seq<nat>, texts: seq<string>, i: nat)
    requires Positions(src, |texts|) && Positions(dst, |texts|) && i < |src| && i < |dst|
    ensures Evened(src, dst, texts, i) == texts[dst[i] := EvenText(texts[src[i]], texts[dst[i]])]
  {
    var s, d := texts[src[i]], texts[dst[i]];
    if s != "" { assert s == s[..|s| - 1] + [s[|s| - 1]] && s[|s| - 1..] == [s[|s| - 1]]; }
    if |s| == |d| + 1 { assert s[..|d|] == s[..|s| - 1]; }
  }

  /** What every turn does, exactly: the `j`-th destination line is evened out with the `j`-th source line as that
      stands at turn `j`. */
  lemma {:induction false} PassExact(src: seq<nat>, dst: seq<nat>, texts: seq<string>, i: nat, j: nat)
    requires Positions(src, |texts|) && Positions(dst, |texts|) && i <= j < |src| && j < |dst|
    ensures |Pass(src, dst, texts, i).0| == |texts|
    ensures Pass(src, dst, texts, i).0[dst[j]] == EvenText(Before(src, dst, texts, i, j)[src[j]], texts[dst[j]])
    decreases j - i
  {
    var next := Evened(src, dst, texts, i);
    EvenedIs(src, dst, texts, i);
    assert dst[i] != dst[j] || i == j;
    if i == j {
      PassMeaning(src, dst, next, i + 1, dst[i]);
    } else {
      PassExact(src, dst, next, i + 1, j);
    }
  }

  lemma {:induction false} PassLength(src: seq<nat>, dst: seq<nat>, texts: seq<string>, i: nat)
    requires Positions(src, |texts|) && Positions(dst, |texts|) && i <= |src|
    ensures |Pass(src, dst, texts, i).0| == |texts|
    decreases |src| - i
  {
    if i < |src| && i < |dst| { PassLength(src, dst, Evened(src, dst, texts, i), i + 1); }
  }

  /** Before turn `j`, a line has its final text if it has had its turn, and its first one otherwise. */
  lemma {:induction false} BeforeIs(src: seq<nat>, dst: seq<nat>, texts: seq<string>, i: nat, j: nat, k: nat)
    requires Positions(src, |texts|) && Positions(dst, |texts|) && i <= j <= |src| && j <= |dst| && k < |texts|
    ensures |Pass(src, dst, texts, i).0| == |texts|
    ensures Before(src, dst, texts, i, j)[k] == if k in dst[i..j] then Pass(src, dst, texts, i).0[k] else texts[k]
    decreases j - i
  {
    PassLength(src, dst, texts, i);
    if i < j {
      var next := Evened(src, dst, texts, i);
      BeforeIs(src, dst, next, i + 1, j, k);
      assert dst[i..j] == [dst[i]] + dst[i + 1..j];
      assert k == dst[i] || next[k] == texts[k];
      assert k == dst[i] ==> forall m :: i + 1 <= m < |dst| ==> dst[m] != k;
      PassMeaning(src, dst, next, i + 1, k);
      hide Evened;
    }
  }

  /** `after` is `before` with every destination line evened out, in order: a source line counts with its final text if
      it is a destination line that came earlier, and all other lines stay. */
  ghost predicate EvenedOut(src: seq<nat>, dst: seq<nat>, before: seq<string>, after: seq<string>)
    requires Positions(src, |before|) && Positions(dst, |before|)
  {
    && |after| == |before|
    && (forall k :: 0 <= k < |before| && after[k] != before[k] ==> exists j :: 0 <= j < |src| && j < |dst| && dst[j] == k)
    && (forall j :: 0 <= j < |src| && j < |dst| ==>
          after[dst[j]] == EvenText(if src[j] in dst[..j] then after[src[j]] else before[src[j]], before[dst[j]]))
  }

  lemma PassEvensOut(src: seq<nat>, dst: seq<nat>, texts: seq<string>)
    requires Positions(src, |texts|) && Positions(dst, |texts|)
    ensures EvenedOut(src, dst, texts, Pass(src, dst, texts, 0).0)
  {
    var after := Pass(src, dst, texts, 0).0;
    PassLength(src, dst, texts, 0);
    forall k | 0 <= k < |texts| && after[k] != texts[k] ensures exists j :: 0 <= j < |src| && j < |dst| && dst[j] == k {
      PassMeaning(src, dst, texts, 0, k);
    }
    forall j | 0 <= j < |src| && j < |dst|
      ensures after[dst[j]] == EvenText(if src[j] in dst[..j] then after[src[j]] else texts[src[j]], texts[dst[j]])
    {
      PassExact(src, dst, texts, 0, j);
      BeforeIs(src, dst, texts, 0, j, src[j]);
      assert dst[0..j] == dst[..j];
    }
  }

  /** `PatchChunkLine`: `src()` and `dst()` return lists that share these objects. */
  class PatchChunkLine {
    var kind: Kind
    var text: string

    constructor (kind: Kind, text: string)
      ensures this.kind == kind && this.text == text
    {
      this.kind, this.text := kind, text;
    }

    method AppendToLine(s: string)
      modifies this`text
      ensures text == old(text) + s
    {
      text := text + s;
    }
  }

  ghost predicate Distinct(lines: seq<PatchChunkLine>) {
    forall i, j :: 0 <= i < j < |lines| ==> lines[i] != lines[j]
  }

  ghost function Texts(lines: seq<PatchChunkLine>): (r: seq<string>)
    reads lines
    ensures |r| == |lines|
  {
    seq(|lines|, i requires 0 <= i < |lines| reads lines => lines[i].text)
  }

  ghost function Kinds(lines: seq<PatchChunkLine>): (r: seq<Kind>)
    reads lines
    ensures |r| == |lines|
  {
    seq(|lines|, i requires 0 <= i < |lines| reads lines => lines[i].kind)
  }

  /** `PatchChunk.src` or `.dst`: the positions of one side's lines. */
  method SideOf(lines: seq<PatchChunkLine>, side: Kind) returns (ps: seq<nat>)
    ensures ps == Side(Kinds(lines), side, 0) && Positions(ps, |lines|)
  {
    ghost var kinds := Kinds(lines);
    KindsAre(lines);
    hide Kinds, Side;
    ps := [];
    for k := 0 to |lines|
      invariant ps + Side(kinds, side, k) == Side(kinds, side, 0)
    {
      ghost var before := ps;
      SideStep(kinds, side, k);
      if lines[k].kind == side || lines[k].kind == Both {
        ps := ps + [k];
        Associate(before, [k], Side(kinds, side, k + 1));
      }
    }
    SideEnd(kinds, side);
    assert ps + [] == ps;
  }

  lemma KindsAre(lines: seq<PatchChunkLine>)
    ensures |Kinds(lines)| == |lines| && forall k :: 0 <= k < |lines| ==> Kinds(lines)[k] == lines[k].kind
  {
  }

  lemma SideStep(kinds: seq<Kind>, side: Kind, k: nat)
    requires k < |kinds|
    ensures Side(kinds, side, k) ==
            if kinds[k] == side || kinds[k] == Both then [k] + Side(kinds, side, k + 1) else Side(kinds, side, k + 1)
  {
  }

  lemma SideEnd(kinds: seq<Kind>, side: Kind)
    ensures Side(kinds, side, |kinds|) == [] && Positions(Side(kinds, side, 0), |kinds|)
  {
  }

  /** One turn of the inner loop: `s = src[i]`, `d = dst[i]`, which may be the same object or meet again later. */
  method EvenLine(lines: seq<PatchChunkLine>, src: seq<nat>, dst: seq<nat>, i: nat)
    requires Distinct(lines) && Positions(src, |lines|) && Positions(dst, |lines|) && i < |src| && i < |dst|
    modifies lines
    ensures Kinds(lines) == old(Kinds(lines))
    ensures Texts(lines) == Evened(src, dst, old(Texts(lines)), i)
  {
    var s, d := lines[src[i]], lines[dst[i]];
    var m := TrailingBlank(s.text);
    if m.Some? && m.value.0 == d.text {
      d.AppendToLine(m.value.1);
    }
  }

  /** The inner loop of `remove_trailing_whitespace_changes`, on shared line objects. */
  method EvenChunk(lines: seq<PatchChunkLine>) returns (ok: bool)
    requires Distinct(lines)
    modifies lines
    ensures Kinds(lines) == old(Kinds(lines))
    ensures (Texts(lines), ok) == Pass(Side(old(Kinds(lines)), Src, 0), Side(old(Kinds(lines)), Dst, 0), old(Texts(lines)), 0)
  {
    var src := SideOf(lines, Src);
    var dst := SideOf(lines, Dst);
    hide Kinds, Side, Evened;
    for i := 0 to |src|
      invariant Kinds(lines) == old(Kinds(lines))
      invariant Pass(src, dst, Texts(lines), i) == Pass(src, dst, old(Texts(lines)), 0)
    {
      if i >= |dst| { return false; }
      EvenLine(lines, src, dst, i);
    }
    return true;
  }

  /** What the pass may do to a line: nothing, or one blank at its end. */
  ghost predicate AtMostOneBlank(before: string, after: string) {
    after == before || (|after| == |before| + 1 && after[..|before|] == before && IsBlank(after[|before|]))
  }

  lemma PassAddsAtMostOne(src: seq<nat>, dst: seq<nat>, texts: seq<string>, k: nat)
    requires Positions(src, |texts|) && Positions(dst, |texts|) && k < |texts|
    ensures |Pass(src, dst, texts, 0).0| == |texts| && AtMostOneBlank(texts[k], Pass(src, dst, texts, 0).0[k])
  {
    PassMeaning(src, dst, texts, 0, k);
  }

  ghost predicate Separate(chunks: seq<seq<PatchChunkLine>>) {
    && (forall c :: 0 <= c < |chunks| ==> Distinct(chunks[c]))
    && (forall c, d, k, m :: 0 <= c < d < |chunks| && 0 <= k < |chunks[c]| && 0 <= m < |chunks[d]| ==> chunks[c][k] != chunks[d][m])
  }

  ghost function LinesOf(chunks: seq<seq<PatchChunkLine>>): set<PatchChunkLine> {
    set c, k | 0 <= c < |chunks| && 0 <= k < |chunks[c]| :: chunks[c][k]
  }

  /** Every source line has a destination line at its index. */
  ghost predicate Balanced(kinds: seq<Kind>) {
    |Side(kinds, Src, 0)| <= |Side(kinds, Dst, 0)|
  }

  lemma {:induction false} PassCompletes(src: seq<nat>, dst: seq<nat>, texts: seq<string>, i: nat)
    requires Positions(src, |texts|) && Positions(dst, |texts|) && i <= |src| && i <= |dst|
    ensures Pass(src, dst, texts, i).1 <==> |src| <= |dst|
    decreases |src| - i
  {
    if i < |src| && i < |dst| { PassCompletes(src, dst, Evened(src, dst, texts, i), i + 1); }
  }

  /** The texts of a chunk after its inner loop. */
  function PassTexts(kinds: seq<Kind>, texts: seq<string>): (r: seq<string>)
    requires |kinds| == |texts|
  {
    Pass(Side(kinds, Src, 0), Side(kinds, Dst, 0), texts, 0).0
  }

  lemma PassTextsAre(kinds: seq<Kind>, texts: seq<string>)
    requires |kinds| == |texts|
    ensures |PassTexts(kinds, texts)| == |texts|
    ensures forall k :: 0 <= k < |texts| ==> AtMostOneBlank(texts[k], PassTexts(kinds, texts)[k])
    ensures Pass(Side(kinds, Src, 0), Side(kinds, Dst, 0), texts, 0).1 <==> |Side(kinds, Src, 0)| <= |Side(kinds, Dst, 0)|
  {
    PassCompletes(Side(kinds, Src, 0), Side(kinds, Dst, 0), texts, 0);
    if texts == [] {
      assert Side(kinds, Src, 0) == [];
    }
    forall k | 0 <= k < |texts| ensures |PassTexts(kinds, texts)| == |texts| && AtMostOneBlank(texts[k], PassTexts(kinds, texts)[k]) {
      PassAddsAtMostOne(Side(kinds, Src, 0), Side(kinds, Dst, 0), texts, k);
    }
  }

  /** The lines of a chunk are evened out: destination line by destination line, with the source line of its index. */
  ghost predicate ChunkEvened(kinds: seq<Kind>, before: seq<string>, after: seq<string>) {
    |kinds| == |before| && EvenedOut(Side(kinds, Src, 0), Side(kinds, Dst, 0), before, after)
  }

  lemma PassTextsEvened(kinds: seq<Kind>, texts: seq<string>)
    requires |kinds| == |texts|
    ensures ChunkEvened(kinds, texts, PassTexts(kinds, texts))
  {
    PassEvensOut(Side(kinds, Src, 0), Side(kinds, Dst, 0), texts);
  }

  /** One chunk, seen from the whole patch set: the others stay as they are. */
  method EvenOne(chunks: seq<seq<PatchChunkLine>>, i: nat) returns (ok: bool)
    requires Separate(chunks) && i < |chunks|
    modifies LinesOf(chunks)
    ensures Kinds(chunks[i]) == old(Kinds(chunks[i])) && Texts(chunks[i]) == PassTexts(old(Kinds(chunks[i])), old(Texts(chunks[i])))
    ensures ok <==> Balanced(old(Kinds(chunks[i])))
    ensures forall c :: 0 <= c < |chunks| && c != i ==>
              Kinds(chunks[c]) == old(Kinds(chunks[c])) && Texts(chunks[c]) == old(Texts(chunks[c]))
  {
    forall x | x in chunks[i] ensures x in LinesOf(chunks) {
      var k :| 0 <= k < |chunks[i]| && chunks[i][k] == x;
    }
    PassTextsAre(Kinds(chunks[i]), Texts(chunks[i]));
    forall c | 0 <= c < |chunks| && c != i ensures Apart(chunks[c], chunks[i]) { SeparateApart(chunks, i, c); }
    hide Kinds, Texts, Pass, Side, ChunkEvened, Separate, LinesOf;
    ok := EvenChunk(chunks[i]);
    forall c | 0 <= c < |chunks| && c != i
      ensures Kinds(chunks[c]) == old(Kinds(chunks[c])) && Texts(chunks[c]) == old(Texts(chunks[c]))
    {
      assert Apart(chunks[c], chunks[i]);
    }
  }

  ghost predicate Apart(a: seq<PatchChunkLine>, b: seq<PatchChunkLine>) { forall x :: x in a ==> x !in b }

  lemma SeparateApart(chunks: seq<seq<PatchChunkLine>>, i: nat, c: nat)
    requires Separate(chunks) && i < |chunks| && c < |chunks| && c != i
    ensures Apart(chunks[c], chunks[i])
  {
    if c < i {
      assert forall k, m :: 0 <= k < |chunks[c]| && 0 <= m < |chunks[i]| ==> chunks[c][k] != chunks[i][m];
    } else {
      assert forall k, m :: 0 <= k < |chunks[i]| && 0 <= m < |chunks[c]| ==> chunks[i][k] != chunks[c][m];
    }
  }

  ghost function AllKinds(chunks: seq<seq<PatchChunkLine>>): (r: seq<seq<Kind>>)
    reads LinesOf(chunks)
    ensures |r| == |chunks| && forall c :: 0 <= c < |chunks| ==> |r[c]| == |chunks[c]| && r[c] == Kinds(chunks[c])
  {
    seq(|chunks|, c requires 0 <= c < |chunks| reads LinesOf(chunks) =>
      (assert forall k :: 0 <= k < |chunks[c]| ==> chunks[c][k] in LinesOf(chunks); Kinds(chunks[c])))
  }

  /** No chunk before chunk `c` has more source than destination lines, so the pass gets as far as `c`. */
  ghost predicate Reached(kinds: seq<seq<Kind>>, c: nat)
    requires c <= |kinds|
  {
    forall d :: 0 <= d < c ==> Balanced(kinds[d])
  }

  /** The outer loops of `remove_trailing_whitespace_changes`, over the chunks of all patches in order. The first
      chunk with more source than destination lines ends the whole pass. */
  method RemoveTrailingWhitespaceChanges(chunks: seq<seq<PatchChunkLine>>) returns (complete: bool)
    requires Separate(chunks)
    modifies LinesOf(chunks)
    ensures AllKinds(chunks) == old(AllKinds(chunks))
    ensures forall c :: 0 <= c < |chunks| ==>
              Texts(chunks[c]) == if Reached(AllKinds(chunks), c) then PassTexts(AllKinds(chunks)[c], old(Texts(chunks[c])))
                                  else old(Texts(chunks[c]))
    ensures forall c :: 0 <= c < |chunks| && Reached(AllKinds(chunks), c) ==> ChunkEvened(AllKinds(chunks)[c], old(Texts(chunks[c])), Texts(chunks[c]))
    ensures complete <==> Reached(AllKinds(chunks), |chunks|)
  {
    hide Balanced, PassTexts, Texts, Kinds, Separate, LinesOf;
    ghost var kinds := AllKinds(chunks);
    forall c | 0 <= c < |chunks| ensures ChunkEvened(kinds[c], Texts(chunks[c]), PassTexts(kinds[c], Texts(chunks[c]))) {
      PassTextsEvened(kinds[c], Texts(chunks[c]));
    }
    hide ChunkEvened;
    for i := 0 to |chunks|
      invariant forall c :: 0 <= c < |chunks| ==> Kinds(chunks[c]) == kinds[c]
      invariant forall c :: 0 <= c < i ==> Texts(chunks[c]) == PassTexts(kinds[c], old(Texts(chunks[c])))
      invariant forall c :: i <= c < |chunks| ==> Texts(chunks[c]) == old(Texts(chunks[c]))
      invariant Reached(kinds, i)
    {
      var ok := EvenOne(chunks, i);
      if !ok {
        assert AllKinds(chunks) == kinds;
        return false;
      }
    }
    assert AllKinds(chunks) == kinds;
    return true;
  }
}
