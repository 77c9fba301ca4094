/** Which token lists `Pipeline.parse` accepts: exactly the texts of well-formed lines, where one redirection sign may
    be left over at the very end. */
module ShellTexts {
  import opened Text
  import opened ShellSyntax

  // ---------- Assignments ----------

  /** Letters, digits and the underscore, by their codes. */
  predicate NameCode(c: int) { 48 <= c <= 57 || 65 <= c <= 90 || c == 95 || 97 <= c <= 122 }

  /** Tab to carriage return, and the space. */
  predicate SpaceCode(c: int) { 9 <= c <= 13 || c == 32 }

  /** The token assigns `value` to `name`; a newline at its very end does not belong to the value. */
  predicate IsAssignment(token: string, name: string, value: string) {
    && name != "" && (forall k :: 0 <= k < |name| ==> NameCode(name[k] as int))
    && value != "" && (forall k :: 0 <= k < |value| ==> !SpaceCode(value[k] as int))
    && (token == name + "=" + value || token == name + "=" + value + "\n")
  }

  lemma CodesMean(c: char)
    ensures IsNameChar(c) <==> NameCode(c as int)
    ensures IsSpace(c) <==> SpaceCode(c as int)
  {
  }

  lemma Chopped(value: string)
    requires value != "" && !IsSpace(value[|value| - 1])
    ensures ChopNewline(value) == value && ChopNewline(value + "\n") == value
  {
    assert (value + "\n")[..|value|] == value;
  }

  lemma FirstEqualsAt(s: string, i: nat)
    requires i < |s| && s[i] == '=' && forall k :: 0 <= k < i ==> s[k] != '='
    ensures FirstEquals(s, 0) == i
  {
    hide FirstEquals;
    forall k | k == i ensures s[k] == '=' {}
  }

  lemma Cut(a: string, b: string)
    ensures (a + "=" + b)[|a|] == '=' && (a + "=" + b)[..|a|] == a && (a + "=" + b)[|a| + 1..] == b
    ensures forall k :: 0 <= k < |a| ==> (a + "=" + b)[k] == a[k]
  {
  }

  lemma MatchOf(name: string, rest: string)
    requires name != "" && (forall k :: 0 <= k < |name| ==> IsNameChar(name[k])) && rest != ""
    requires var value := ChopNewline(rest); value != "" && forall k :: 0 <= k < |value| ==> !IsSpace(value[k])
    ensures EnvMatch(name + "=" + rest) == Some((name, ChopNewline(rest)))
  {
    Cut(name, rest);
    assert forall k :: 0 <= k < |name| ==> name[k] != '=';
    FirstEqualsAt(name + "=" + rest, |name|);
    hide FirstEquals, ChopNewline, IsNameChar, IsSpace;
  }

  lemma AssignmentIsMatched(token: string, name: string, value: string)
    requires IsAssignment(token, name, value)
    ensures EnvMatch(token) == Some((name, value))
  {
    forall k | 0 <= k < |name| ensures IsNameChar(name[k]) { CodesMean(name[k]); }
    forall k | 0 <= k < |value| ensures !IsSpace(value[k]) { CodesMean(value[k]); }
    hide EnvMatch, ChopNewline, IsNameChar, IsSpace, NameCode, SpaceCode;
    Chopped(value);
    if token == name + "=" + value {
      MatchOf(name, value);
    } else {
      assert name + "=" + value + "\n" == name + "=" + (value + "\n");
      MatchOf(name, value + "\n");
    }
  }

  /** What `env_var_rx` matches, and what it captures. */
  lemma EnvMatchMeans(token: string, name: string, value: string)
    ensures EnvMatch(token) == Some((name, value)) <==> IsAssignment(token, name, value)
  {
    if IsAssignment(token, name, value) { AssignmentIsMatched(token, name, value); }
    if EnvMatch(token) == Some((name, value)) {
      forall k | 0 <= k < |name| ensures NameCode(name[k] as int) { CodesMean(name[k]); }
      forall k | 0 <= k < |value| ensures !SpaceCode(value[k] as int) { CodesMean(value[k]); }
      var i := FirstEquals(token, 0);
      var rest := token[i + 1..];
      assert token == name + "=" + rest;
      assert rest == value || rest == value + "\n";
    }
  }

  // ---------- Texts of lines ----------

  predicate EnvSpelt(env: seq<(string, string)>, tokens: seq<string>) {
    |tokens| == |env| && forall i :: 0 <= i < |env| ==> EnvMatch(tokens[i]) == Some(env[i])
  }

  ghost predicate StageSpelt(s: Stage, tokens: seq<string>) {
    match s
    case Run(env, name, words) =>
      |tokens| >= |env| && EnvSpelt(env, tokens[..|env|]) && tokens[|env|..] == [name] + WordTokens(words)
    case Cd(_) => tokens == StageTokens(s)
  }

  /** `tokens` spell the line `t`: stage by stage, with the operators in between. */
  ghost predicate LineSpelt(t: Line, tokens: seq<string>)
    decreases t
  {
    match t
    case Last(s) => StageSpelt(s, tokens)
    case Chain(s, op, rest) =>
      exists k :: 0 <= k < |tokens| && StageSpelt(s, tokens[..k]) && tokens[k] == OpToken(op) && LineSpelt(rest, tokens[k + 1..])
  }

  function LastStage(t: Line): Stage { match t case Last(s) => s case Chain(_, _, rest) => LastStage(rest) }

  /** Nothing, or a redirection sign without its file behind a command; `parse` forgets it. */
  predicate LeftOver(t: Line, extra: seq<string>) {
    extra == [] || (LastStage(t).Run? && (extra == [">"] || extra == ["2>"] || extra == ["<"]))
  }

  // ---------- Every such text is accepted ----------

  lemma {:induction false} EnvSound(m: map<string, string>, pipeline: seq<Node>, env: seq<(string, string)>, tokens: seq<string>, rest: seq<string>)
    requires EnvSpelt(env, tokens)
    ensures ParseFrom(Parsing(Begin, None, pipeline, m), tokens + rest) == ParseFrom(Parsing(Begin, None, pipeline, Assign(m, env)), rest)
    decreases |env|
  {
    if env == [] {
      assert tokens + rest == rest;
    } else {
      var a := env[0];
      assert tokens + rest == [tokens[0]] + (tokens[1..] + rest);
      ParseStep(Parsing(Begin, None, pipeline, m), tokens[0], tokens[1..] + rest);
      EnvSound(m[a.0 := a.1], pipeline, env[1..], tokens[1..], rest);
    }
  }

  /** The parser once it holds the node of a stage. */
  function Held(s: Stage, pipeline: seq<Node>): Parsing {
    Parsing(if s.Run? then InCommand else InChdir, Some(NodeOf(s)), pipeline, map[])
  }

  lemma StageSound(s: Stage, pipeline: seq<Node>, tokens: seq<string>, rest: seq<string>)
    requires ValidStage(s) && StageSpelt(s, tokens)
    ensures ParseFrom(Parsing(Begin, None, pipeline, map[]), tokens + rest) == ParseFrom(Held(s, pipeline), rest)
  {
    hide ParseFrom;
    match s
    case Run(env, name, words) =>
      var front := tokens[..|env|];
      var after := [name] + (WordTokens(words) + rest);
      assert tokens + rest == front + after by {
        assert tokens == front + tokens[|env|..];
        Associate(front, tokens[|env|..], rest);
        Associate([name], WordTokens(words), rest);
      }
      EnvSound(map[], pipeline, env, front, after);
      ParseName(env, name, pipeline, WordTokens(words) + rest);
      ParseWords(Bare(env, name), pipeline, words, rest);
    case Cd(dir) => ParseCd(dir, pipeline, rest);
  }

  lemma LastSound(s: Stage, pipeline: seq<Node>, extra: seq<string>)
    requires LeftOver(Last(s), extra)
    ensures ParseFrom(Held(s, pipeline), extra) == Some(pipeline + [NodeOf(s)])
  {
    if extra != [] {
      assert extra[1..] == [];
      assert Consume(Held(s, pipeline), extra[0]).Some?;
    }
  }

  lemma OpSound(s: Stage, op: Node, pipeline: seq<Node>, tokens: seq<string>, rest: seq<string>)
    requires ValidStage(s) && StageSpelt(s, tokens)
    requires !op.IsCommand() && (s.Cd? ==> op == And) && (s.Run? && op == Pipe ==> NodeOf(s).stdout.Inherited?)
    ensures ParseFrom(Parsing(Begin, None, pipeline, map[]), tokens + ([OpToken(op)] + rest)) ==
            ParseFrom(Parsing(Begin, None, pipeline + [Linked(s, op), op], map[]), rest)
  {
    hide ParseFrom, StageSpelt, ValidStage, OpToken, Linked, NodeOf;
    StageSound(s, pipeline, tokens, [OpToken(op)] + rest);
    ParseOp(s, op, pipeline, rest);
  }

  lemma CutAt<T>(a: seq<T>, k: nat, extra: seq<T>)
    requires k < |a|
    ensures a + extra == a[..k] + ([a[k]] + (a[k + 1..] + extra))
  {
  }

  lemma NodesChain(s: Stage, op: Node, later: Line, pipeline: seq<Node>)
    ensures pipeline + Nodes(Chain(s, op, later)) == pipeline + [Linked(s, op), op] + Nodes(later)
  {
  }

  lemma {:induction false} LineSound(t: Line, pipeline: seq<Node>, tokens: seq<string>, extra: seq<string>)
    requires ValidLine(t) && LineSpelt(t, tokens) && LeftOver(t, extra)
    ensures ParseFrom(Parsing(Begin, None, pipeline, map[]), tokens + extra) == Some(pipeline + Nodes(t))
    decreases t
  {
    hide ParseFrom, StageSpelt, ValidStage, OpToken, Linked, NodeOf;
    match t
    case Last(s) =>
      StageSound(s, pipeline, tokens, extra);
      LastSound(s, pipeline, extra);
    case Chain(s, op, later) =>
      var k :| 0 <= k < |tokens| && StageSpelt(s, tokens[..k]) && tokens[k] == OpToken(op) && LineSpelt(later, tokens[k + 1..]);
      hide LineSpelt, Nodes;
      CutAt(tokens, k, extra);
      OpSound(s, op, pipeline, tokens[..k], tokens[k + 1..] + extra);
      LineSound(later, pipeline + [Linked(s, op), op], tokens[k + 1..], extra);
      NodesChain(s, op, later, pipeline);
  }

  // ---------- Nothing else is accepted ----------

  predicate Sign(w: string) { w == ">" || w == "2>" || w == "<" }

  predicate IsOp(w: string) { w == "|" || w == "&&" || w == "||" }

  /** The first word of `tokens`, or none before an operator, a left-over sign or the end. */
  lemma NextWord(c: Node, pipeline: seq<Node>, tokens: seq<string>) returns (ws: seq<Word>, rest: seq<string>)
    requires c.Command? && ParseFrom(Parsing(InCommand, Some(c), pipeline, map[]), tokens).Some?
    ensures |ws| <= 1 && ValidWords(c, ws) && tokens == WordTokens(ws) + rest && (ws != [] ==> |rest| < |tokens|)
    ensures ws == [] ==> rest == [] || (|rest| == 1 && Sign(rest[0])) || IsOp(rest[0])
    ensures ws == [] && rest != [] && rest[0] == "|" ==> c.stdout.Inherited?
  {
    ws, rest := [], tokens;
    if tokens == [] || IsOp(tokens[0]) || (|tokens| == 1 && Sign(tokens[0])) {
      assert WordTokens([]) + tokens == tokens;
    } else if Sign(tokens[0]) {
      var f := tokens[1];
      var w := if tokens[0] == ">" then StdoutTo(f) else if tokens[0] == "2>" then StderrTo(f) else StdinFrom(f);
      assert tokens[1..][0] == f;
      ws, rest := [w], tokens[2..];
      OneWord(c, w);
      assert tokens == [tokens[0], f] + rest;
    } else {
      var w := if tokens[0] == "2>&1" then StderrToStdout else Arg(tokens[0]);
      ws, rest := [w], tokens[1..];
      OneWord(c, w);
      assert tokens == [tokens[0]] + rest;
    }
  }

  lemma OneWord(c: Node, w: Word)
    requires c.Command?
    ensures ValidWords(c, [w]) <==>
            match w
            case Arg(a) => !Reserved(a)
            case StdoutTo(_) => c.stdout.Inherited?
            case StderrTo(_) => c.stderr.InheritedErr?
            case StderrToStdout => c.stderr.InheritedErr?
            case StdinFrom(_) => c.stdin.None?
    ensures WithWords(c, [w]) == WithWord(c, w)
    ensures WordTokens([w]) ==
            match w
            case Arg(a) => [a]
            case StdoutTo(f) => [">", f]
            case StderrTo(f) => ["2>", f]
            case StderrToStdout => ["2>&1"]
            case StdinFrom(f) => ["<", f]
  {
    assert [w][1..] == [];
  }

  lemma WordsCons(c: Node, w: Word, ws: seq<Word>)
    requires c.Command? && ValidWords(c, [w]) && ValidWords(WithWord(c, w), ws)
    ensures ValidWords(c, [w] + ws) && WithWords(c, [w] + ws) == WithWords(WithWord(c, w), ws)
    ensures WordTokens([w] + ws) == WordTokens([w]) + WordTokens(ws)
  {
    OneWord(c, w);
    assert ([w] + ws)[1..] == ws;
  }

  /** All words of the command, up to an operator, a left-over sign or the end. */
  lemma {:induction false} AllWords(c: Node, pipeline: seq<Node>, tokens: seq<string>) returns (ws: seq<Word>, rest: seq<string>)
    requires c.Command? && ParseFrom(Parsing(InCommand, Some(c), pipeline, map[]), tokens).Some?
    ensures ValidWords(c, ws) && tokens == WordTokens(ws) + rest
    ensures rest == [] || (|rest| == 1 && Sign(rest[0])) || IsOp(rest[0])
    ensures rest != [] && rest[0] == "|" ==> WithWords(c, ws).stdout.Inherited?
    ensures ParseFrom(Parsing(InCommand, Some(c), pipeline, map[]), tokens) ==
            ParseFrom(Parsing(InCommand, Some(WithWords(c, ws)), pipeline, map[]), rest)
    decreases |tokens|
  {
    ws, rest := NextWord(c, pipeline, tokens);
    ParseWords(c, pipeline, ws, rest);
    hide ParseFrom;
    if ws != [] {
      var w := ws[0];
      assert ws == [w];
      OneWord(c, w);
      var first, later := ws, rest;
      ws, rest := AllWords(WithWord(c, w), pipeline, later);
      WordsCons(c, w, ws);
      Associate(WordTokens([w]), WordTokens(ws), rest);
      ws := [w] + ws;
    }
  }

  lemma EnvSpeltCons(a: (string, string), env: seq<(string, string)>, tokens: seq<string>, n: nat)
    requires n < |tokens| && EnvMatch(tokens[0]) == Some(a) && EnvSpelt(env, tokens[1..][..n])
    ensures EnvSpelt([a] + env, tokens[..n + 1])
  {
    hide EnvMatch;
    var front := tokens[..n + 1];
    forall i | 0 <= i < n + 1 ensures EnvMatch(front[i]) == Some(([a] + env)[i]) {
      if i > 0 { assert front[i] == tokens[1..][..n][i - 1]; }
    }
  }

  /** The assignments in front of a command. */
  lemma {:induction false} AllAssignments(m: map<string, string>, pipeline: seq<Node>, tokens: seq<string>)
      returns (env: seq<(string, string)>, n: nat)
    requires ParseFrom(Parsing(Begin, None, pipeline, m), tokens).Some?
    ensures n == |env| < |tokens| && EnvSpelt(env, tokens[..n]) && EnvMatch(tokens[n]).None?
    ensures ParseFrom(Parsing(Begin, None, pipeline, m), tokens) == ParseFrom(Parsing(Begin, None, pipeline, Assign(m, env)), tokens[n..])
    decreases |tokens|
  {
    assert tokens != [];
    var a := EnvMatch(tokens[0]);
    if a.None? {
      env, n := [], 0;
      assert tokens[0..] == tokens;
    } else {
      assert tokens == [tokens[0]] + tokens[1..];
      ParseStep(Parsing(Begin, None, pipeline, m), tokens[0], tokens[1..]);
      var m' := m[a.value.0 := a.value.1];
      assert Consume(Parsing(Begin, None, pipeline, m), tokens[0]) == Some(Parsing(Begin, None, pipeline, m'));
      hide ParseFrom, Consume, EnvMatch, EnvSpelt;
      env, n := AllAssignments(m', pipeline, tokens[1..]);
      EnvSpeltCons(a.value, env, tokens, n);
      assert tokens[1..][n..] == tokens[n + 1..] && tokens[1..][n] == tokens[n + 1];
      assert ([a.value] + env)[1..] == env;
      env, n := [a.value] + env, n + 1;
    }
  }

  lemma SpeltAssignments(env: seq<(string, string)>, tokens: seq<string>)
    requires EnvSpelt(env, tokens)
    ensures forall a :: a in env ==> ValidAssignment(a)
  {
    forall a | a in env ensures ValidAssignment(a) {
      var i :| 0 <= i < |env| && env[i] == a;
      assert EnvMatch(tokens[i]) == Some(a);
    }
  }

  /** The operator a token stands for. */
  function OpOf(w: string): Option<Node> {
    if w == "|" then Some(Pipe) else if w == "&&" then Some(And) else if w == "||" then Some(Or) else None
  }

  /** `op` may follow the stage `s`. */
  predicate MayFollow(s: Stage, op: Node) {
    !op.IsCommand() && (s.Cd? ==> op == And) && (s.Run? && op == Pipe ==> NodeOf(s).stdout.Inherited?)
  }

  /** Behind the first `k` tokens, which spell `s`: the end, a left-over sign, or an operator that may follow. */
  predicate Behind(s: Stage, tokens: seq<string>, k: nat, op: Option<Node>) {
    match op
    case None => k == |tokens| || (s.Run? && k + 1 == |tokens| && Sign(tokens[k]))
    case Some(o) => k < |tokens| && tokens[k] == OpToken(o) && MayFollow(s, o)
  }

  lemma Slices<T>(a: seq<T>, n: nat, ws: seq<T>, rest: seq<T>)
    requires n < |a| && a[n + 1..] == ws + rest
    ensures n + 1 + |ws| <= |a| && a[n + 1 + |ws|..] == rest
    ensures a[..n + 1 + |ws|][..n] == a[..n] && a[..n + 1 + |ws|][n..] == [a[n]] + ws
  {
  }

  lemma WhatFollows(s: Stage, tokens: seq<string>, k: nat) returns (op: Option<Node>)
    requires k <= |tokens| && s.Run?
    requires k == |tokens| || (k + 1 == |tokens| && Sign(tokens[k])) || IsOp(tokens[k])
    requires k < |tokens| && tokens[k] == "|" ==> NodeOf(s).stdout.Inherited?
    ensures Behind(s, tokens, k, op)
  {
    op := if k < |tokens| then OpOf(tokens[k]) else None;
  }

  lemma RunStage(env: seq<(string, string)>, pipeline: seq<Node>, tokens: seq<string>) returns (s: Stage, k: nat, op: Option<Node>)
    requires |env| < |tokens| && EnvSpelt(env, tokens[..|env|]) && EnvMatch(tokens[|env|]).None? && tokens[|env|] != "cd"
    requires ParseFrom(Parsing(InCommand, Some(Bare(env, tokens[|env|])), pipeline, map[]), tokens[|env| + 1..]).Some?
    ensures |env| < k <= |tokens| && ValidStage(s) && StageSpelt(s, tokens[..k]) && Behind(s, tokens, k, op)
  {
    hide ParseFrom, EnvMatch, EnvSpelt, ValidWords, WordTokens, WithWords, Sign, IsOp, Behind, ValidAssignment;
    var n := |env|;
    var name := tokens[n];
    SpeltAssignments(env, tokens[..n]);
    var words, rest := AllWords(Bare(env, name), pipeline, tokens[n + 1..]);
    Slices(tokens, n, WordTokens(words), rest);
    s, k := Run(env, name, words), n + 1 + |WordTokens(words)|;
    assert k < |tokens| ==> rest[0] == tokens[k];
    op := WhatFollows(s, tokens, k);
  }

  /** The parser between two stages. */
  function AtStart(pipeline: seq<Node>): (p: Parsing)
    ensures Coherent(p)
  {
    Parsing(Begin, None, pipeline, map[])
  }

  /** The first stage. */
  lemma FirstStage(pipeline: seq<Node>, tokens: seq<string>) returns (s: Stage, k: nat, op: Option<Node>)
    requires ParseFrom(AtStart(pipeline), tokens).Some?
    ensures 0 < k <= |tokens| && ValidStage(s) && StageSpelt(s, tokens[..k]) && Behind(s, tokens, k, op)
  {
    var env, n := AllAssignments(map[], pipeline, tokens);
    AssignKeeps(map[], env);
    assert tokens[n..] == [tokens[n]] + tokens[n + 1..];
    if tokens[n] == "cd" {
      assert env == [] && n == 0;
      s, k := CdStage(pipeline, tokens);
      op := if k < |tokens| then Some(And) else None;
    } else {
      ParseName(env, tokens[n], pipeline, tokens[n + 1..]);
      hide ParseFrom;
      s, k, op := RunStage(env, pipeline, tokens);
    }
  }

  lemma CdStage(pipeline: seq<Node>, tokens: seq<string>) returns (s: Stage, k: nat)
    requires ParseFrom(AtStart(pipeline), tokens).Some? && tokens != [] && tokens[0] == "cd"
    ensures 0 < k <= |tokens| && s.Cd? && ValidStage(s) && StageSpelt(s, tokens[..k])
    ensures k == |tokens| || tokens[k] == "&&"
  {
    assert EnvMatch("cd").None?;
    var p := Parsing(Begin, None, pipeline, map[]);
    var q := Parsing(InChdir, Some(Chdir(None)), pipeline, map[]);
    assert Consume(p, tokens[0]) == Some(q);
    if |tokens| == 1 || tokens[1] == "&&" {
      s, k := Cd(None), 1;
      assert tokens[..1] == ["cd"];
    } else {
      s, k := Cd(Some(tokens[1])), 2;
      assert tokens[..2] == ["cd"] + [tokens[1]];
      var held := Parsing(InChdir, Some(Chdir(s.dir)), pipeline, map[]);
      assert Consume(q, tokens[1]) == Some(held);
      assert tokens == ["cd"] + ([tokens[1]] + tokens[2..]);
      ParseStep(p, "cd", [tokens[1]] + tokens[2..]);
      ParseStep(q, tokens[1], tokens[2..]);
      assert ParseFrom(held, tokens[2..]).Some?;
      assert |tokens| > 2 ==> tokens[2..][0] == tokens[2] && Consume(held, tokens[2]).Some?;
    }
  }

  lemma BehindStage(s: Stage, op: Node, pipeline: seq<Node>, tokens: seq<string>, k: nat)
    requires k <= |tokens| && ValidStage(s) && StageSpelt(s, tokens[..k]) && Behind(s, tokens, k, Some(op))
    ensures k < |tokens|
    ensures ParseFrom(AtStart(pipeline), tokens) ==
            ParseFrom(AtStart(pipeline + [Linked(s, op), op]), tokens[k + 1..])
  {
    hide ParseFrom, ValidStage, StageSpelt, NodeOf, OpToken;
    CutAt(tokens, k, []);
    assert tokens + [] == tokens && tokens[k + 1..] + [] == tokens[k + 1..];
    OpSound(s, op, pipeline, tokens[..k], tokens[k + 1..]);
  }

  lemma LineEnds(s: Stage, tokens: seq<string>, k: nat)
    requires k <= |tokens| && ValidStage(s) && StageSpelt(s, tokens[..k]) && Behind(s, tokens, k, None)
    ensures TextUpTo(Last(s), tokens, k)
  {
    hide StageSpelt, ValidStage;
    assert tokens[k..] == if k == |tokens| then [] else [tokens[k]];
  }

  lemma LineGoesOn(s: Stage, op: Node, t: Line, extra: seq<string>)
    requires ValidStage(s) && ValidLine(t) && LeftOver(t, extra) && MayFollow(s, op)
    ensures ValidLine(Chain(s, op, t)) && LeftOver(Chain(s, op, t), extra)
  {
  }

  lemma SpeltChain(s: Stage, op: Node, t: Line, tokens: seq<string>, k: nat, n: nat)
    requires k < |tokens| && k + 1 + n <= |tokens| && StageSpelt(s, tokens[..k]) && tokens[k] == OpToken(op)
    requires LineSpelt(t, tokens[k + 1..][..n])
    ensures LineSpelt(Chain(s, op, t), tokens[..k + 1 + n])
  {
    hide StageSpelt;
    var front := tokens[..k + 1 + n];
    assert front[..k] == tokens[..k] && front[k] == tokens[k] && front[k + 1..] == tokens[k + 1..][..n];
  }

  ghost predicate TextUpTo(t: Line, tokens: seq<string>, n: nat) {
    n <= |tokens| && ValidLine(t) && LineSpelt(t, tokens[..n]) && LeftOver(t, tokens[n..])
  }

  lemma LineStep(s: Stage, op: Node, t: Line, tokens: seq<string>, k: nat, n: nat)
    requires k < |tokens| && ValidStage(s) && StageSpelt(s, tokens[..k]) && Behind(s, tokens, k, Some(op))
    requires TextUpTo(t, tokens[k + 1..], n)
    ensures TextUpTo(Chain(s, op, t), tokens, k + 1 + n)
  {
    hide ValidStage, StageSpelt, OpToken, MayFollow, ValidLine, LineSpelt, LeftOver;
    assert tokens[k + 1..][n..] == tokens[k + 1 + n..];
    SpeltChain(s, op, t, tokens, k, n);
    LineGoesOn(s, op, t, tokens[k + 1 + n..]);
  }

  /** What is accepted is the text of a line. */
  lemma {:induction false} LineOf(pipeline: seq<Node>, tokens: seq<string>) returns (t: Line, n: nat)
    requires ParseFrom(AtStart(pipeline), tokens).Some?
    ensures TextUpTo(t, tokens, n)
    decreases |tokens|
  {
    var s, k, op := FirstStage(pipeline, tokens);
    hide ParseFrom, AtStart, Coherent, StageSpelt, ValidStage, Behind, OpToken, Linked, TextUpTo;
    if op.None? {
      t, n := Last(s), k;
      LineEnds(s, tokens, k);
    } else {
      BehindStage(s, op.value, pipeline, tokens, k);
      t, n := LineOf(pipeline + [Linked(s, op.value), op.value], tokens[k + 1..]);
      LineStep(s, op.value, t, tokens, k, n);
      t, n := Chain(s, op.value, t), k + 1 + n;
    }
  }

  /** One line, spelt out. */
  lemma ParseSpelt()
    ensures Parse(["X=1", "a", "<", "i", "b", "2>", "e"] + (["|"] + ["c", ">", "o", "2>&1"])) ==
            Some([Command(["a", "b"], Some("i"), ToPipe, ToErrFile("e"), Some(map["X" := "1"])), Pipe] +
                 [Command(["c"], None, ToFile("o"), ToStdout, None)])
  {
    var first, second := Run([("X", "1")], "a", [StdinFrom("i"), Arg("b"), StderrTo("e")]), Run([], "c", [StdoutTo("o"), StderrToStdout]);
    FirstSpelt();
    SecondSpelt();
    TwoStages(first, second);
  }

  lemma TwoStages(first: Stage, second: Stage)
    requires ValidStage(first) && ValidStage(second) && first.Run? && NodeOf(first).stdout.Inherited?
    ensures Parse(StageTokens(first) + (["|"] + StageTokens(second))) == Some([NodeOf(first).(stdout := ToPipe), Pipe] + [NodeOf(second)])
  {
    hide ValidStage, StageTokens, NodeOf;
    ParseInvertsTokens(Chain(first, Pipe, Last(second)));
  }

  lemma NotAssignments()
    ensures EnvMatch("a").None? && EnvMatch("c").None? && EnvMatch("f").None?
  {
  }

  lemma FirstSpelt()
    ensures var s := Run([("X", "1")], "a", [StdinFrom("i"), Arg("b"), StderrTo("e")]);
            && ValidStage(s) && StageTokens(s) == ["X=1", "a", "<", "i", "b", "2>", "e"]
            && NodeOf(s) == Command(["a", "b"], Some("i"), Inherited, ToErrFile("e"), Some(map["X" := "1"]))
  {
    NotAssignments();
    var env := [("X", "1")];
    assert "X" + "=" + "1" == "X=1";
    assert env[1..] == [] && EnvTokens(env) == ["X=1"] + EnvTokens([]) && EnvTokens([]) == [];
    assert Assign(map[], env) == map["X" := "1"];
    var c := Bare(env, "a");
    WordsCons(WithWord(WithWord(c, StdinFrom("i")), Arg("b")), StderrTo("e"), []);
    WordsCons(WithWord(c, StdinFrom("i")), Arg("b"), [StderrTo("e")]);
    WordsCons(c, StdinFrom("i"), [Arg("b"), StderrTo("e")]);
    assert [Arg("b")] + [StderrTo("e")] == [Arg("b"), StderrTo("e")];
    assert [StdinFrom("i")] + [Arg("b"), StderrTo("e")] == [StdinFrom("i"), Arg("b"), StderrTo("e")];
    assert [StderrTo("e")] + [] == [StderrTo("e")];
    OneWord(c, StdinFrom("i"));
    OneWord(c, Arg("b"));
    OneWord(c, StderrTo("e"));
    assert ["a"] + ["b"] == ["a", "b"];
  }

  lemma SecondSpelt()
    ensures var s := Run([], "c", [StdoutTo("o"), StderrToStdout]);
            && ValidStage(s) && StageTokens(s) == ["c", ">", "o", "2>&1"]
            && NodeOf(s) == Command(["c"], None, ToFile("o"), ToStdout, None)
  {
    NotAssignments();
    var c := Bare([], "c");
    OneWord(c, StdoutTo("o"));
    OneWord(WithWord(c, StdoutTo("o")), StderrToStdout);
    WordsCons(c, StdoutTo("o"), [StderrToStdout]);
    assert [StdoutTo("o")] + [StderrToStdout] == [StdoutTo("o"), StderrToStdout];
    assert EnvTokens([]) == [];
  }

  /** `parse` succeeds exactly on the texts of well-formed lines, a left-over sign aside, and returns their nodes: at
      most one redirection of each stream, no second directory and no assignment for `cd`, no operator at either end,
      nothing but "&&" behind a `cd`, and no redirected output into a pipe. */
  lemma ParseMeans(tokens: seq<string>, ns: seq<Node>)
    ensures Parse(tokens) == Some(ns) <==>
            exists t, n :: 0 <= n <= |tokens| && ValidLine(t) && LineSpelt(t, tokens[..n]) && LeftOver(t, tokens[n..]) && Nodes(t) == ns
  {
    hide ParseFrom, ValidLine, LineSpelt, LeftOver;
    if Parse(tokens) == Some(ns) {
      var t, n := LineOf([], tokens);
      LineSound(t, [], tokens[..n], tokens[n..]);
      assert tokens[..n] + tokens[n..] == tokens && [] + Nodes(t) == Nodes(t);
    }
    forall t, n | 0 <= n <= |tokens| && ValidLine(t) && LineSpelt(t, tokens[..n]) && LeftOver(t, tokens[n..])
      ensures Parse(tokens) == Some(Nodes(t))
    {
      LineSound(t, [], tokens[..n], tokens[n..]);
      assert tokens[..n] + tokens[n..] == tokens && [] + Nodes(t) == Nodes(t);
    }
  }
}
