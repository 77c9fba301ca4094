/** Unified diffs in check-style.py: `Patch.write` and `parse_patchset`. A file is a list of lines without their newlines. */
module PatchSet {
  import opened Text

  datatype Kind = Src | Dst | Both
  datatype Line = Line(kind: Kind, text: string)
  datatype Chunk = Chunk(srcPos: nat, dstPos: nat, lines: seq<Line>)
  datatype Patch = Patch(src: string, dst: string, chunks: seq<Chunk>)

  predicate IsSrc(l: Line) { l.kind == Src || l.kind == Both }
  predicate IsDst(l: Line) { l.kind == Dst || l.kind == Both }

  /** `src_len` and `dst_len`. */
  function SrcLen(lines: seq<Line>): nat {
    if lines == [] then 0 else (if IsSrc(lines[0]) then 1 else 0) + SrcLen(lines[1..])
  }

  function DstLen(lines: seq<Line>): nat {
    if lines == [] then 0 else (if IsDst(lines[0]) then 1 else 0) + DstLen(lines[1..])
  }

  // ---------- Writing ----------

  function Mark(k: Kind): char { match k case Src => '-' case Dst => '+' case Both => ' ' }

  function LineText(l: Line): string { [Mark(l.kind)] + l.text }

  function HeaderText(c: Chunk): string {
    "@@ -" + (Decimal(c.srcPos) + ([','] + (Decimal(SrcLen(c.lines)) + ([' '] + ("+" +
      (Decimal(c.dstPos) + ([','] + (Decimal(DstLen(c.lines)) + ([' '] + "@@")))))))))
  }

  function WriteLines(lines: seq<Line>): seq<string> {
    if lines == [] then [] else [LineText(lines[0])] + WriteLines(lines[1..])
  }

  function WriteChunks(chunks: seq<Chunk>): seq<string> {
    if chunks == [] then [] else [HeaderText(chunks[0])] + (WriteLines(chunks[0].lines) + WriteChunks(chunks[1..]))
  }

  function Write(patches: seq<Patch>): seq<string> {
    if patches == [] then []
    else ["--- " + patches[0].src] + (["+++ " + patches[0].dst] + (WriteChunks(patches[0].chunks) + Write(patches[1..])))
  }

  // ---------- Reading ----------

  /** The longest run of digits at the start of `s`. */
  function DigitsOf(s: string): (d: string)
    ensures |d| <= |s| && AllDigits(d) && s[..|d|] == d
    ensures |d| < |s| ==> !IsDigit(s[|d|])
  {
    if s == "" || !IsDigit(s[0]) then "" else [s[0]] + DigitsOf(s[1..])
  }

  /** `[0-9]+` at the start of `s`: the number and the rest. */
  function Number(s: string): Option<(nat, string)> {
    var d := DigitsOf(s);
    if d == "" then None else Some((Numeral(d), s[|d|..]))
  }

  /** `s` without the prefix `p`, if it has it. */
  function Strip(s: string, p: string): Option<string> {
    if |p| <= |s| && s[..|p|] == p then Some(s[|p|..]) else None
  }

  /** `^@@ -([0-9]+),([0-9]+) \\+([0-9]+),([0-9]+) @@`: the two positions. */
  function Header(s: string): Option<(nat, nat)> {
    var a := Strip(s, "@@ -");
    if a.None? then None else
    var n1 := Number(a.value);
    if n1.None? then None else
    var b := Strip(n1.value.1, ",");
    if b.None? then None else
    var n2 := Number(b.value);
    if n2.None? then None else
    var c := Strip(n2.value.1, " +");
    if c.None? then None else
    var n3 := Number(c.value);
    if n3.None? then None else
    var d := Strip(n3.value.1, ",");
    if d.None? then None else
    var n4 := Number(d.value);
    if n4.None? || Strip(n4.value.1, " @@").None? then None
    else Some((n1.value.0, n3.value.0))
  }

  /** What one line of the file is taken for, in the order the expressions are tried. */
  datatype Item = SrcFile(name: string) | DstFile(name: string) | Start(srcPos: nat, dstPos: nat) | Body(line: Line) | Unknown

  function Classify(s: string): Item {
    if Strip(s, "--- ").Some? then SrcFile(s[4..])
    else if Strip(s, "+++ ").Some? then DstFile(s[4..])
    else if Header(s).Some? then Start(Header(s).value.0, Header(s).value.1)
    else if s == "" then Unknown
    else if s[0] == '-' then Body(Line(Src, s[1..]))
    else if s[0] == '+' then Body(Line(Dst, s[1..]))
    else if s[0] == ' ' then Body(Line(Both, s[1..]))
    else Unknown
  }

  /** The patches so far, and where `current_chunk` is among them: the chunk started last, which a new file
      header does not forget. */
  datatype Reading = Reading(patches: seq<Patch>, current: Option<(nat, nat)>)

  predicate Valid(r: Reading) {
    r.current.Some? ==> r.current.value.0 < |r.patches| && r.current.value.1 < |r.patches[r.current.value.0].chunks|
  }

  function WithLine(c: Chunk, l: Line): Chunk { c.(lines := c.lines + [l]) }

  function AddLine(patches: seq<Patch>, p: nat, c: nat, l: Line): seq<Patch>
    requires p < |patches| && c < |patches[p].chunks|
  {
    patches[p := patches[p].(chunks := patches[p].chunks[c := WithLine(patches[p].chunks[c], l)])]
  }

  /** One turn of the loop; `None` is an exception. */
  function Take(r: Reading, item: Item): (r': Option<Reading>)
    requires Valid(r)
    ensures r'.Some? ==> Valid(r'.value)
  {
    var last := |r.patches| - 1;
    match item
    case SrcFile(name) => Some(r.(patches := r.patches + [Patch(name, "", [])]))
    case DstFile(name) => if r.patches == [] then None else Some(r.(patches := r.patches[last := r.patches[last].(dst := name)]))
    case Start(a, b) =>
      if r.patches == [] then None
      else
        var patch := r.patches[last];
        Some(Reading(r.patches[last := patch.(chunks := patch.chunks + [Chunk(a, b, [])])], Some((last, |patch.chunks|))))
    case Body(l) => if r.current.None? then None else Some(r.(patches := AddLine(r.patches, r.current.value.0, r.current.value.1, l)))
    case Unknown => None
  }

  function ParseFrom(r: Reading, file: seq<string>): Option<seq<Patch>>
    requires Valid(r)
    decreases |file|
  {
    if file == [] then Some(r.patches)
    else
      var r' := Take(r, Classify(file[0]));
      if r'.None? then None else ParseFrom(r'.value, file[1..])
  }

  function ParsePatchset(file: seq<string>): Option<seq<Patch>> { ParseFrom(Reading([], None), file) }

  // ---------- One line ----------

  lemma StripPrefix(p: string, s: string)
    ensures Strip(p + s, p) == Some(s)
  {
    assert (p + s)[..|p|] == p && (p + s)[|p|..] == s;
  }

  lemma {:induction false} DigitsOfRun(d: string, stop: char, s: string)
    requires AllDigits(d) && !IsDigit(stop)
    ensures DigitsOf(d + ([stop] + s)) == d
  {
    var t := d + ([stop] + s);
    if d == "" {
      assert t == [stop] + s;
    } else {
      assert t[1..] == d[1..] + ([stop] + s);
      DigitsOfRun(d[1..], stop, s);
    }
  }

  lemma NumberOfDecimal(n: nat, stop: char, s: string)
    requires !IsDigit(stop)
    ensures Number(Decimal(n) + ([stop] + s)) == Some((n, [stop] + s))
  {
    DigitsOfRun(Decimal(n), stop, s);
    NumeralOfDecimal(n);
    assert (Decimal(n) + ([stop] + s))[|Decimal(n)|..] == [stop] + s;
  }

  lemma HeaderReadBack(c: Chunk)
    ensures Classify(HeaderText(c)) == Start(c.srcPos, c.dstPos)
  {
    hide Number, Strip, Decimal;
    var u4 := [' '] + "@@";
    var t4 := Decimal(DstLen(c.lines)) + u4;
    var t3 := Decimal(c.dstPos) + ([','] + t4);
    var u2 := [' '] + ("+" + t3);
    var t2 := Decimal(SrcLen(c.lines)) + u2;
    var t1 := Decimal(c.srcPos) + ([','] + t2);
    assert HeaderText(c) == "@@ -" + t1;
    StripPrefix("@@ -", t1);
    NumberOfDecimal(c.srcPos, ',', t2);
    StripPrefix(",", t2);
    NumberOfDecimal(SrcLen(c.lines), ' ', "+" + t3);
    assert u2 == " +" + t3;
    StripPrefix(" +", t3);
    NumberOfDecimal(c.dstPos, ',', t4);
    StripPrefix(",", t4);
    NumberOfDecimal(DstLen(c.lines), ' ', "@@");
    assert u4 == " @@" + "";
    StripPrefix(" @@", "");
    assert Header(HeaderText(c)) == Some((c.srcPos, c.dstPos));
    NotAFile(HeaderText(c));
  }

  /** `s` is a chunk header: four numerals in their places, and anything behind the closing signs. */
  predicate IsHeader(s: string, a: string, b: string, c: string, d: string, tail: string) {
    && a != "" && b != "" && c != "" && d != "" && AllDigits(a) && AllDigits(b) && AllDigits(c) && AllDigits(d)
    && s == "@@ -" + (a + ("," + (b + (" +" + (c + ("," + (d + (" @@" + tail))))))))
  }

  lemma NumberOfDigits(d: string, stop: char, s: string)
    requires d != "" && AllDigits(d) && !IsDigit(stop)
    ensures Number(d + ([stop] + s)) == Some((Numeral(d), [stop] + s))
  {
    DigitsOfRun(d, stop, s);
    assert (d + ([stop] + s))[|d|..] == [stop] + s;
  }

  lemma NumberSplits(s: string) returns (d: string)
    requires Number(s).Some?
    ensures d != "" && AllDigits(d) && Number(s).value.0 == Numeral(d) && s == d + Number(s).value.1
  {
    d := DigitsOf(s);
    assert s == s[..|d|] + s[|d|..];
  }

  lemma StripSplits(s: string, p: string)
    requires Strip(s, p).Some?
    ensures s == p + Strip(s, p).value
  {
    assert s == s[..|p|] + s[|p|..];
  }

  lemma HeaderIsRead(s: string, a: string, b: string, c: string, d: string, tail: string)
    requires IsHeader(s, a, b, c, d, tail)
    ensures Header(s) == Some((Numeral(a), Numeral(c)))
  {
    hide Number, Strip, Numeral;
    var t4 := d + (" @@" + tail);
    var t3 := c + ("," + t4);
    var t2 := b + (" +" + t3);
    var t1 := a + ("," + t2);
    StripPrefix("@@ -", t1);
    NumberOfDigits(a, ',', t2);
    StripPrefix(",", t2);
    assert " +" + t3 == [' '] + ("+" + t3);
    NumberOfDigits(b, ' ', "+" + t3);
    StripPrefix(" +", t3);
    NumberOfDigits(c, ',', t4);
    StripPrefix(",", t4);
    assert " @@" + tail == [' '] + ("@@" + tail);
    NumberOfDigits(d, ' ', "@@" + tail);
    StripPrefix(" @@", tail);
  }

  /** Exactly the lines of that form start a chunk, and the positions are the first and the third numeral. */
  lemma HeaderMeans(s: string)
    ensures Header(s).Some? <==> exists a, b, c, d, tail :: IsHeader(s, a, b, c, d, tail)
    ensures forall a, b, c, d, tail :: IsHeader(s, a, b, c, d, tail) ==> Header(s) == Some((Numeral(a), Numeral(c)))
  {
    forall a, b, c, d, tail | IsHeader(s, a, b, c, d, tail) ensures Header(s) == Some((Numeral(a), Numeral(c))) {
      HeaderIsRead(s, a, b, c, d, tail);
    }
    if Header(s).Some? {
      var a, b, c, d, tail := HeaderSplits(s);
    }
  }

  lemma HeaderSplits(s: string) returns (a: string, b: string, c: string, d: string, tail: string)
    requires Header(s).Some?
    ensures IsHeader(s, a, b, c, d, tail)
  {
    hide Number, Strip, Numeral;
    StripSplits(s, "@@ -");
    var s1 := Strip(s, "@@ -").value;
    a := NumberSplits(s1);
    var r1 := Number(s1).value.1;
    StripSplits(r1, ",");
    var s2 := Strip(r1, ",").value;
    b := NumberSplits(s2);
    var r2 := Number(s2).value.1;
    StripSplits(r2, " +");
    var s3 := Strip(r2, " +").value;
    c := NumberSplits(s3);
    var r3 := Number(s3).value.1;
    StripSplits(r3, ",");
    var s4 := Strip(r3, ",").value;
    d := NumberSplits(s4);
    var r4 := Number(s4).value.1;
    StripSplits(r4, " @@");
    tail := Strip(r4, " @@").value;
  }

  /** The written header names the source position, the number of source lines, the destination position and the number
      of destination lines, in this order. */
  lemma HeaderCounts(c: Chunk)
    ensures IsHeader(HeaderText(c), Decimal(c.srcPos), Decimal(|Selected(c.lines, Src)|),
                     Decimal(c.dstPos), Decimal(|Selected(c.lines, Dst)|), "")
  {
    CountsAreLengths(c.lines);
    var a, b, p, q := Decimal(c.srcPos), Decimal(SrcLen(c.lines)), Decimal(c.dstPos), Decimal(DstLen(c.lines));
    hide Decimal, SrcLen, DstLen;
    assert " @@" + "" == [' '] + "@@";
    assert "," + (q + (" @@" + "")) == [','] + (q + ([' '] + "@@"));
    var t3 := p + ([','] + (q + ([' '] + "@@")));
    assert " +" + t3 == [' '] + ("+" + t3);
    assert "," + (b + (" +" + t3)) == [','] + (b + ([' '] + ("+" + t3)));
  }

  lemma NotAFile(s: string)
    requires s != "" && s[0] == '@'
    ensures Strip(s, "--- ").None? && Strip(s, "+++ ").None?
  {
  }

  /** Whether the line, once written, can be told from a file header. */
  predicate Plain(l: Line) {
    && (l.kind == Src ==> Strip(l.text, "-- ").None?)
    && (l.kind == Dst ==> Strip(l.text, "++ ").None?)
  }

  lemma FileNames(s: string)
    ensures Classify("--- " + s) == SrcFile(s) && Classify("+++ " + s) == DstFile(s)
  {
    StripPrefix("--- ", s);
    StripPrefix("+++ ", s);
    var t := "+++ " + s;
    assert t[0] == '+';
    assert (t)[4..] == s && ("--- " + s)[4..] == s;
  }

  lemma StripCons(c: char, s: string, p: string)
    ensures Strip([c] + s, [c] + p).Some? <==> Strip(s, p).Some?
  {
    if |p| <= |s| {
      assert ([c] + s)[..1 + |p|] == [c] + s[..|p|];
      assert ([c] + s[..|p|])[1..] == s[..|p|] && ([c] + p)[1..] == p;
    }
  }

  lemma StripFirst(s: string, p: string)
    requires p != "" && (s == "" || s[0] != p[0])
    ensures Strip(s, p).None?
  {
    if |p| <= |s| { assert s[..|p|][0] == s[0]; }
  }

  /** A written line is read back as itself, or else as a file header. */
  lemma LineReadBack(l: Line)
    ensures Plain(l) ==> Classify(LineText(l)) == Body(l)
    ensures !Plain(l) ==> if l.kind == Src then Classify(LineText(l)).SrcFile? else Classify(LineText(l)).DstFile?
  {
    var s := LineText(l);
    assert s[0] == Mark(l.kind) && s[1..] == l.text;
    HeaderNeedsAt(s);
    assert "--- " == ['-'] + "-- " && "+++ " == ['+'] + "++ ";
    if l.kind == Src { StripCons('-', l.text, "-- "); } else { StripFirst(s, "--- "); }
    if l.kind == Dst { StripCons('+', l.text, "++ "); } else { StripFirst(s, "+++ "); }
    hide Strip, Header;
  }

  lemma HeaderNeedsAt(s: string)
    requires s != "" && s[0] != '@'
    ensures Header(s).None?
  {
    hide Number;
    if |s| >= 4 { assert s[..4][0] == s[0]; }
  }

  // ---------- What is accepted ----------

  lemma StripMeans(s: string, p: string, rest: string)
    ensures Strip(s, p) == Some(rest) <==> s == p + rest
  {
    if Strip(s, p).Some? { StripSplits(s, p); }
    StripPrefix(p, rest);
  }

  /** What every line is taken for. */
  lemma ClassifyMeans(s: string, t: string)
    ensures Classify(s) == SrcFile(t) <==> s == "--- " + t
    ensures Classify(s) == DstFile(t) <==> s == "+++ " + t
    ensures Classify(s).Start? <==> Header(s).Some?
    ensures Classify(s) == Body(Line(Src, t)) <==> s == "-" + t && Strip(s, "--- ").None?
    ensures Classify(s) == Body(Line(Dst, t)) <==> s == "+" + t && Strip(s, "+++ ").None?
    ensures Classify(s) == Body(Line(Both, t)) <==> s == " " + t
    ensures Classify(s) == Unknown <==> Header(s).None? && (s == "" || (s[0] != '-' && s[0] != '+' && s[0] != ' '))
  {
    StripMeans(s, "--- ", t);
    StripMeans(s, "+++ ", t);
    if s != "" {
      assert s == [s[0]] + s[1..];
      if s[0] != '@' { HeaderNeedsAt(s); }
      if s[0] != '-' { StripFirst(s, "--- "); }
      if s[0] != '+' { StripFirst(s, "+++ "); }
    }
    assert ("-" + t)[1..] == t && ("+" + t)[1..] == t && (" " + t)[1..] == t;
    assert "--- "[0] == '-' && "+++ "[0] == '+';
  }

  /** Line `i` has its place: known for what it is, a destination name or a chunk behind some source name, and a body
      line behind some chunk. */
  ghost predicate InPlace(file: seq<string>, i: int)
    requires 0 <= i < |file|
  {
    match Classify(file[i])
    case SrcFile(_) => true
    case DstFile(_) => exists j :: 0 <= j < i && Classify(file[j]).SrcFile?
    case Start(_, _) => exists j :: 0 <= j < i && Classify(file[j]).SrcFile?
    case Body(_) => exists j :: 0 <= j < i && Classify(file[j]).Start?
    case Unknown => false
  }

  lemma {:induction false} AcceptsFrom(file: seq<string>, i: nat, r: Reading)
    requires i <= |file| && Valid(r) && (forall k :: 0 <= k < i ==> InPlace(file, k))
    requires r.patches != [] <==> exists j :: 0 <= j < i && Classify(file[j]).SrcFile?
    requires r.current.Some? <==> exists j :: 0 <= j < i && Classify(file[j]).Start?
    ensures ParseFrom(r, file[i..]).Some? <==> forall k :: 0 <= k < |file| ==> InPlace(file, k)
    decreases |file| - i
  {
    if i < |file| {
      hide Classify;
      var item := Classify(file[i]);
      assert file[i..][0] == file[i] && file[i..][1..] == file[i + 1..];
      var r' := Take(r, item);
      assert r'.Some? <==> InPlace(file, i);
      if r'.Some? {
        assert r'.value.patches != [] <==> r.patches != [] || item.SrcFile?;
        assert r'.value.current.Some? <==> r.current.Some? || item.Start?;
        AcceptsFrom(file, i + 1, r'.value);
      }
    }
  }

  /** `parse_patchset` raises exactly on files with a line out of place. */
  lemma ParseAccepts(file: seq<string>)
    ensures ParsePatchset(file).Some? <==> forall k :: 0 <= k < |file| ==> InPlace(file, k)
  {
    assert file[0..] == file;
    AcceptsFrom(file, 0, Reading([], None));
  }

  /** A new file does not end the chunk: until its own first chunk starts, body lines still go to the previous file. */
  lemma StaleChunk(r: Reading, name: string, l: Line)
    requires Valid(r) && r.current.Some?
    ensures var r1 := Take(r, SrcFile(name));
            r1.Some? && Take(r1.value, Body(l)) ==
              Some(Reading(AddLine(r.patches, r.current.value.0, r.current.value.1, l) + [Patch(name, "", [])], r.current))
  {
    var p, c := r.current.value.0, r.current.value.1;
    assert AddLine(r.patches + [Patch(name, "", [])], p, c, l) == AddLine(r.patches, p, c, l) + [Patch(name, "", [])];
  }

  // ---------- Plain patches are read back ----------

  predicate PlainLines(lines: seq<Line>) { forall l :: l in lines ==> Plain(l) }
  predicate PlainChunks(chunks: seq<Chunk>) { forall c :: c in chunks ==> PlainLines(c.lines) }

  /** No removed text starts with "-- " and no added one with "++ ". */
  predicate PlainPatches(patches: seq<Patch>) { forall p :: p in patches ==> PlainChunks(p.chunks) }

  lemma ParseStep(r: Reading, line: string, rest: seq<string>)
    requires Valid(r)
    ensures ParseFrom(r, [line] + rest) ==
            var r' := Take(r, Classify(line)); if r'.None? then None else ParseFrom(r'.value, rest)
  {
    assert ([line] + rest)[1..] == rest;
  }

  /** In the middle of `chunk`, the newest of `patch`, behind the finished patches `ps`. */
  function Within(ps: seq<Patch>, patch: Patch, chunk: Chunk): (r: Reading)
    ensures Valid(r)
  {
    Reading(ps + [patch.(chunks := patch.chunks + [chunk])], Some((|ps|, |patch.chunks|)))
  }

  lemma TakeLine(ps: seq<Patch>, patch: Patch, chunk: Chunk, l: Line)
    ensures Take(Within(ps, patch, chunk), Body(l)) == Some(Within(ps, patch, WithLine(chunk, l)))
  {
    var chunks := patch.chunks + [chunk];
    assert chunks[|patch.chunks| := WithLine(chunk, l)] == patch.chunks + [WithLine(chunk, l)];
    var patches := ps + [patch.(chunks := chunks)];
    assert forall q :: patches[|ps| := q] == ps + [q];
  }

  lemma ParseOneLine(ps: seq<Patch>, patch: Patch, chunk: Chunk, l: Line, rest: seq<string>)
    requires Plain(l)
    ensures ParseFrom(Within(ps, patch, chunk), [LineText(l)] + rest) == ParseFrom(Within(ps, patch, WithLine(chunk, l)), rest)
  {
    LineReadBack(l);
    TakeLine(ps, patch, chunk, l);
    hide ParseFrom, Take, Classify, LineText, Within;
    ParseStep(Within(ps, patch, chunk), LineText(l), rest);
  }

  lemma PlainRest(lines: seq<Line>)
    requires PlainLines(lines) && lines != []
    ensures Plain(lines[0]) && PlainLines(lines[1..])
  {
    assert lines[0] in lines && forall m :: m in lines[1..] ==> m in lines;
  }

  lemma {:induction false} ParseLines(ps: seq<Patch>, patch: Patch, chunk: Chunk, lines: seq<Line>, rest: seq<string>)
    requires PlainLines(lines)
    ensures ParseFrom(Within(ps, patch, chunk), WriteLines(lines) + rest) ==
            ParseFrom(Within(ps, patch, chunk.(lines := chunk.lines + lines)), rest)
    decreases |lines|
  {
    if lines == [] {
      assert WriteLines(lines) + rest == rest && chunk.lines + lines == chunk.lines;
    } else {
      var l := lines[0];
      PlainRest(lines);
      assert WriteLines(lines) == [LineText(l)] + WriteLines(lines[1..]);
      hide ParseFrom, LineText, Within, Plain, PlainLines, WriteLines;
      Associate([LineText(l)], WriteLines(lines[1..]), rest);
      ParseOneLine(ps, patch, chunk, l, WriteLines(lines[1..]) + rest);
      ParseLines(ps, patch, WithLine(chunk, l), lines[1..], rest);
      Associate(chunk.lines, [l], lines[1..]);
      assert [l] + lines[1..] == lines;
    }
  }

  lemma TakeStart(ps: seq<Patch>, patch: Patch, current: Option<(nat, nat)>, a: nat, b: nat)
    requires Valid(Reading(ps + [patch], current))
    ensures Take(Reading(ps + [patch], current), Start(a, b)) == Some(Within(ps, patch, Chunk(a, b, [])))
  {
    var next := patch.(chunks := patch.chunks + [Chunk(a, b, [])]);
    assert (ps + [patch])[|ps| := next] == ps + [next];
  }

  lemma ParseChunk(ps: seq<Patch>, patch: Patch, current: Option<(nat, nat)>, chunk: Chunk, rest: seq<string>)
    requires Valid(Reading(ps + [patch], current)) && PlainLines(chunk.lines)
    ensures ParseFrom(Reading(ps + [patch], current), [HeaderText(chunk)] + (WriteLines(chunk.lines) + rest)) ==
            ParseFrom(Within(ps, patch, chunk), rest)
  {
    hide ParseFrom, Take, Classify, HeaderText, Within;
    HeaderReadBack(chunk);
    TakeStart(ps, patch, current, chunk.srcPos, chunk.dstPos);
    ParseStep(Reading(ps + [patch], current), HeaderText(chunk), WriteLines(chunk.lines) + rest);
    var start := Chunk(chunk.srcPos, chunk.dstPos, []);
    ParseLines(ps, patch, start, chunk.lines, rest);
    assert [] + chunk.lines == chunk.lines;
  }

  lemma {:induction false} ParseChunks(ps: seq<Patch>, patch: Patch, current: Option<(nat, nat)>, chunks: seq<Chunk>, rest: seq<string>)
      returns (current': Option<(nat, nat)>)
    requires Valid(Reading(ps + [patch], current)) && PlainChunks(chunks)
    ensures Valid(Reading(ps + [patch.(chunks := patch.chunks + chunks)], current'))
    ensures ParseFrom(Reading(ps + [patch], current), WriteChunks(chunks) + rest) ==
            ParseFrom(Reading(ps + [patch.(chunks := patch.chunks + chunks)], current'), rest)
    decreases |chunks|
  {
    if chunks == [] {
      assert WriteChunks(chunks) + rest == rest && patch.chunks + chunks == patch.chunks;
      current' := current;
    } else {
      var c := chunks[0];
      assert c in chunks && forall d :: d in chunks[1..] ==> d in chunks;
      assert PlainLines(c.lines) && PlainChunks(chunks[1..]);
      ChunksLayout(chunks, rest);
      hide ParseFrom, HeaderText, WriteLines, WriteChunks, PlainLines, PlainChunks;
      ParseChunk(ps, patch, current, c, WriteChunks(chunks[1..]) + rest);
      var next := patch.(chunks := patch.chunks + [c]);
      assert Within(ps, patch, c) == Reading(ps + [next], Some((|ps|, |patch.chunks|)));
      current' := ParseChunks(ps, next, Some((|ps|, |patch.chunks|)), chunks[1..], rest);
      ChunksJoin(patch, chunks);
    }
  }

  lemma ChunksJoin(patch: Patch, chunks: seq<Chunk>)
    requires chunks != []
    ensures var next := patch.(chunks := patch.chunks + [chunks[0]]);
            next.(chunks := next.chunks + chunks[1..]) == patch.(chunks := patch.chunks + chunks)
  {
    assert patch.chunks + [chunks[0]] + chunks[1..] == patch.chunks + chunks;
  }

  lemma ChunksLayout(chunks: seq<Chunk>, rest: seq<string>)
    requires chunks != []
    ensures WriteChunks(chunks) + rest ==
            [HeaderText(chunks[0])] + (WriteLines(chunks[0].lines) + (WriteChunks(chunks[1..]) + rest))
  {
    hide HeaderText, WriteLines;
    var h, ls := [HeaderText(chunks[0])], WriteLines(chunks[0].lines);
    Associate(h, ls + WriteChunks(chunks[1..]), rest);
    Associate(ls, WriteChunks(chunks[1..]), rest);
  }

  lemma ParseFile(ps: seq<Patch>, current: Option<(nat, nat)>, patch: Patch, rest: seq<string>)
    requires Valid(Reading(ps, current))
    ensures Valid(Reading(ps + [Patch(patch.src, patch.dst, [])], current))
    ensures ParseFrom(Reading(ps, current), ["--- " + patch.src] + (["+++ " + patch.dst] + rest)) ==
            ParseFrom(Reading(ps + [Patch(patch.src, patch.dst, [])], current), rest)
  {
    FileNames(patch.src);
    FileNames(patch.dst);
    hide ParseFrom, Classify;
    ParseStep(Reading(ps, current), "--- " + patch.src, ["+++ " + patch.dst] + rest);
    var opened' := Reading(ps + [Patch(patch.src, "", [])], current);
    assert Take(Reading(ps, current), SrcFile(patch.src)) == Some(opened');
    ParseStep(opened', "+++ " + patch.dst, rest);
    assert opened'.patches[|ps| := Patch(patch.src, patch.dst, [])] == ps + [Patch(patch.src, patch.dst, [])];
  }

  lemma ParsePatch(ps: seq<Patch>, current: Option<(nat, nat)>, p: Patch, rest: seq<string>) returns (current': Option<(nat, nat)>)
    requires Valid(Reading(ps, current)) && PlainChunks(p.chunks)
    ensures Valid(Reading(ps + [p], current'))
    ensures ParseFrom(Reading(ps, current), ["--- " + p.src] + (["+++ " + p.dst] + (WriteChunks(p.chunks) + rest))) ==
            ParseFrom(Reading(ps + [p], current'), rest)
  {
    hide ParseFrom, WriteChunks, PlainChunks;
    ParseFile(ps, current, p, WriteChunks(p.chunks) + rest);
    var bare := Patch(p.src, p.dst, []);
    current' := ParseChunks(ps, bare, current, p.chunks, rest);
    assert [] + p.chunks == p.chunks;
    assert bare.(chunks := bare.chunks + p.chunks) == p;
  }

  lemma {:induction false} ParsePatches(ps: seq<Patch>, current: Option<(nat, nat)>, patches: seq<Patch>)
    requires Valid(Reading(ps, current)) && PlainPatches(patches)
    ensures ParseFrom(Reading(ps, current), Write(patches)) == Some(ps + patches)
    decreases |patches|
  {
    if patches == [] {
      assert ps + patches == ps;
    } else {
      var p := patches[0];
      assert p in patches && forall q :: q in patches[1..] ==> q in patches;
      hide ParseFrom, WriteChunks, PlainChunks;
      var current' := ParsePatch(ps, current, p, Write(patches[1..]));
      ParsePatches(ps + [p], current', patches[1..]);
      Associate(ps, [p], patches[1..]);
      assert [p] + patches[1..] == patches;
    }
  }

  // ---------- Others are not: counting patches and lines ----------

  function CountFiles(file: seq<string>): nat {
    if file == [] then 0 else (if Classify(file[0]).SrcFile? then 1 else 0) + CountFiles(file[1..])
  }

  function CountBody(file: seq<string>): nat {
    if file == [] then 0 else (if Classify(file[0]).Body? then 1 else 0) + CountBody(file[1..])
  }

  function ChunkTotal(chunks: seq<Chunk>): nat {
    if chunks == [] then 0 else |chunks[0].lines| + ChunkTotal(chunks[1..])
  }

  function Total(patches: seq<Patch>): nat {
    if patches == [] then 0 else ChunkTotal(patches[0].chunks) + Total(patches[1..])
  }

  lemma {:induction false} ChunkTotalUpdate(chunks: seq<Chunk>, c: nat, chunk: Chunk)
    requires c < |chunks|
    ensures ChunkTotal(chunks[c := chunk]) + |chunks[c].lines| == ChunkTotal(chunks) + |chunk.lines|
  {
    if c == 0 {
      assert chunks[0 := chunk][1..] == chunks[1..];
    } else {
      ChunkTotalUpdate(chunks[1..], c - 1, chunk);
      assert chunks[c := chunk][1..] == chunks[1..][c - 1 := chunk];
    }
  }

  lemma {:induction false} TotalUpdate(patches: seq<Patch>, p: nat, patch: Patch)
    requires p < |patches|
    ensures Total(patches[p := patch]) + ChunkTotal(patches[p].chunks) == Total(patches) + ChunkTotal(patch.chunks)
  {
    if p == 0 {
      assert patches[0 := patch][1..] == patches[1..];
    } else {
      TotalUpdate(patches[1..], p - 1, patch);
      assert patches[p := patch][1..] == patches[1..][p - 1 := patch];
    }
  }

  lemma {:induction false} ChunkTotalAppend(chunks: seq<Chunk>, chunk: Chunk)
    ensures ChunkTotal(chunks + [chunk]) == ChunkTotal(chunks) + |chunk.lines|
  {
    if chunks != [] {
      ChunkTotalAppend(chunks[1..], chunk);
      assert (chunks + [chunk])[1..] == chunks[1..] + [chunk];
    }
  }

  lemma {:induction false} TotalAppend(patches: seq<Patch>, patch: Patch)
    ensures Total(patches + [patch]) == Total(patches) + ChunkTotal(patch.chunks)
  {
    if patches != [] {
      TotalAppend(patches[1..], patch);
      assert (patches + [patch])[1..] == patches[1..] + [patch];
    }
  }

  /** A file header adds a patch, a body line adds a line, the rest adds neither. */
  lemma TakeCounts(r: Reading, item: Item)
    requires Valid(r) && Take(r, item).Some?
    ensures var ps := Take(r, item).value.patches;
            && |ps| == |r.patches| + (if item.SrcFile? then 1 else 0)
            && Total(ps) == Total(r.patches) + (if item.Body? then 1 else 0)
  {
    var last := |r.patches| - 1;
    match item
    case SrcFile(name) => TotalAppend(r.patches, Patch(name, "", []));
    case DstFile(name) => TotalUpdate(r.patches, last, r.patches[last].(dst := name));
    case Start(a, b) =>
      var chunks := r.patches[last].chunks;
      ChunkTotalAppend(chunks, Chunk(a, b, []));
      TotalUpdate(r.patches, last, r.patches[last].(chunks := chunks + [Chunk(a, b, [])]));
    case Body(l) =>
      var (p, c) := r.current.value;
      var chunks := r.patches[p].chunks;
      ChunkTotalUpdate(chunks, c, WithLine(chunks[c], l));
      TotalUpdate(r.patches, p, r.patches[p].(chunks := chunks[c := WithLine(chunks[c], l)]));
    case Unknown =>
  }

  lemma {:induction false} ParseCounts(r: Reading, file: seq<string>)
    requires Valid(r) && ParseFrom(r, file).Some?
    ensures |ParseFrom(r, file).value| == |r.patches| + CountFiles(file)
    ensures Total(ParseFrom(r, file).value) == Total(r.patches) + CountBody(file)
    decreases |file|
  {
    if file != [] {
      hide Take, Classify, Total;
      TakeCounts(r, Classify(file[0]));
      ParseCounts(Take(r, Classify(file[0])).value, file[1..]);
    }
  }

  function Bad(lines: seq<Line>, k: Kind): nat {
    if lines == [] then 0 else (if lines[0].kind == k && !Plain(lines[0]) then 1 else 0) + Bad(lines[1..], k)
  }

  function BadInChunks(chunks: seq<Chunk>, k: Kind): nat {
    if chunks == [] then 0 else Bad(chunks[0].lines, k) + BadInChunks(chunks[1..], k)
  }

  function BadInPatches(patches: seq<Patch>, k: Kind): nat {
    if patches == [] then 0 else BadInChunks(patches[0].chunks, k) + BadInPatches(patches[1..], k)
  }

  lemma {:induction false} CountAppend(a: seq<string>, b: seq<string>)
    ensures CountFiles(a + b) == CountFiles(a) + CountFiles(b) && CountBody(a + b) == CountBody(a) + CountBody(b)
  {
    if a == [] {
      assert a + b == b;
    } else {
      hide Classify;
      CountAppend(a[1..], b);
      assert (a + b)[1..] == a[1..] + b;
    }
  }

  lemma CountOne(s: string)
    ensures CountFiles([s]) == (if Classify(s).SrcFile? then 1 else 0) && CountBody([s]) == (if Classify(s).Body? then 1 else 0)
  {
    hide Classify;
    assert [s][1..] == [];
  }

  lemma {:induction false} LinesCounts(lines: seq<Line>)
    ensures CountFiles(WriteLines(lines)) == Bad(lines, Src)
    ensures CountBody(WriteLines(lines)) + Bad(lines, Src) + Bad(lines, Dst) == |lines|
  {
    if lines != [] {
      hide Classify, LineText;
      LinesCounts(lines[1..]);
      CountOne(LineText(lines[0]));
      CountAppend([LineText(lines[0])], WriteLines(lines[1..]));
      LineReadBack(lines[0]);
      assert !Plain(lines[0]) ==> lines[0].kind == Src || lines[0].kind == Dst;
    }
  }

  lemma {:induction false} ChunksCounts(chunks: seq<Chunk>)
    ensures CountFiles(WriteChunks(chunks)) == BadInChunks(chunks, Src)
    ensures CountBody(WriteChunks(chunks)) + BadInChunks(chunks, Src) + BadInChunks(chunks, Dst) == ChunkTotal(chunks)
  {
    if chunks != [] {
      hide Classify, HeaderText;
      var c := chunks[0];
      ChunksCounts(chunks[1..]);
      HeaderReadBack(c);
      CountOne(HeaderText(c));
      LinesCounts(c.lines);
      CountAppend(WriteLines(c.lines), WriteChunks(chunks[1..]));
      CountAppend([HeaderText(c)], WriteLines(c.lines) + WriteChunks(chunks[1..]));
    }
  }

  lemma {:induction false} WriteCounts(patches: seq<Patch>)
    ensures CountFiles(Write(patches)) == |patches| + BadInPatches(patches, Src)
    ensures CountBody(Write(patches)) + BadInPatches(patches, Src) + BadInPatches(patches, Dst) == Total(patches)
  {
    if patches != [] {
      var p := patches[0];
      WriteCounts(patches[1..]);
      FileNames(p.src);
      FileNames(p.dst);
      hide Classify;
      CountOne("--- " + p.src);
      CountOne("+++ " + p.dst);
      ChunksCounts(p.chunks);
      var rest := Write(patches[1..]);
      CountAppend(WriteChunks(p.chunks), rest);
      CountAppend(["+++ " + p.dst], WriteChunks(p.chunks) + rest);
      CountAppend(["--- " + p.src], ["+++ " + p.dst] + (WriteChunks(p.chunks) + rest));
    }
  }

  lemma {:induction false} NoBadLines(lines: seq<Line>)
    requires Bad(lines, Src) == 0 && Bad(lines, Dst) == 0
    ensures PlainLines(lines)
  {
    if lines != [] {
      NoBadLines(lines[1..]);
      assert forall l :: l in lines ==> l == lines[0] || l in lines[1..];
    }
  }

  lemma {:induction false} NoBadChunks(chunks: seq<Chunk>)
    requires BadInChunks(chunks, Src) == 0 && BadInChunks(chunks, Dst) == 0
    ensures PlainChunks(chunks)
  {
    if chunks != [] {
      NoBadLines(chunks[0].lines);
      NoBadChunks(chunks[1..]);
      assert forall c :: c in chunks ==> c == chunks[0] || c in chunks[1..];
    }
  }

  lemma {:induction false} NoBadPatches(patches: seq<Patch>)
    requires BadInPatches(patches, Src) == 0 && BadInPatches(patches, Dst) == 0
    ensures PlainPatches(patches)
  {
    if patches != [] {
      NoBadChunks(patches[0].chunks);
      NoBadPatches(patches[1..]);
      assert forall p :: p in patches ==> p == patches[0] || p in patches[1..];
    }
  }

  /** One small patch, spelt out. */
  lemma PatchSpelt()
    ensures Write([Patch("a", "b", [Chunk(1, 2, [Line(Both, "x"), Line(Src, "y"), Line(Dst, "z"), Line(Dst, "")])])]) ==
            ["--- a", "+++ b", "@@ -1,2 +2,3 @@", " x", "-y", "+z", "+"]
  {
    var l0 := [Line(Both, "x"), Line(Src, "y"), Line(Dst, "z"), Line(Dst, "")];
    var l1, l2, l3: seq<Line> := l0[1..], l0[2..], l0[3..];
    assert l1 == [Line(Src, "y"), Line(Dst, "z"), Line(Dst, "")] && l2 == [Line(Dst, "z"), Line(Dst, "")] && l3 == [Line(Dst, "")];
    assert l1[1..] == l2 && l2[1..] == l3 && l3[1..] == [];
    assert SrcLen(l3) == SrcLen(l2) == 0 && SrcLen(l1) == 1 && SrcLen(l0) == 2;
    assert DstLen(l3) == 1 && DstLen(l2) == DstLen(l1) == 2 && DstLen(l0) == 3;
    assert LineText(l3[0]) == "+" && LineText(l2[0]) == "+z" && LineText(l1[0]) == "-y" && LineText(l0[0]) == " x";
    assert WriteLines(l3) == ["+"] && WriteLines(l2) == ["+z"] + WriteLines(l3) && WriteLines(l1) == ["-y"] + WriteLines(l2);
    assert Decimal(1) == "1" && Decimal(2) == "2" && Decimal(3) == "3";
    SpeltOut(Chunk(1, 2, l0));
  }

  lemma SpeltOut(c: Chunk)
    requires HeaderText(c) == "@@ -1,2 +2,3 @@" && WriteLines(c.lines) == [" x", "-y", "+z", "+"]
    ensures Write([Patch("a", "b", [c])]) == ["--- a", "+++ b", "@@ -1,2 +2,3 @@", " x", "-y", "+z", "+"]
  {
    hide HeaderText, WriteLines;
    assert [c][1..] == [] && [Patch("a", "b", [c])][1..] == [];
    assert WriteChunks([c]) == ["@@ -1,2 +2,3 @@"] + ([" x", "-y", "+z", "+"] + []);
    assert "--- " + "a" == "--- a" && "+++ " + "b" == "+++ b";
  }

  /** `parse_patchset` undoes `Patch.write` exactly for the patches whose lines cannot be taken for file headers. */
  lemma PatchRoundTrip(patches: seq<Patch>)
    ensures ParsePatchset(Write(patches)) == Some(patches) <==> PlainPatches(patches)
  {
    hide ParseFrom, PlainPatches;
    if PlainPatches(patches) {
      ParsePatches([], None, patches);
      assert [] + patches == patches;
    }
    if ParsePatchset(Write(patches)) == Some(patches) {
      ParseCounts(Reading([], None), Write(patches));
      WriteCounts(patches);
      NoBadPatches(patches);
    }
  }

  /** The counts in a written header are those of the lines a reader of the source, or of the result, will find. */
  lemma {:induction false} CountsAreLengths(lines: seq<Line>)
    ensures SrcLen(lines) == |Selected(lines, Src)| && DstLen(lines) == |Selected(lines, Dst)|
    ensures SrcLen(lines) + DstLen(lines) >= |lines|
  {
    if lines != [] { CountsAreLengths(lines[1..]); }
  }

  /** The texts of one side: `src()` for `Src`, `dst()` for `Dst`. */
  function Selected(lines: seq<Line>, side: Kind): seq<string> {
    if lines == [] then []
    else (if lines[0].kind == side || lines[0].kind == Both then [lines[0].text] else []) + Selected(lines[1..], side)
  }
}
