/** The pipeline language of shellcmd.py: nodes, the token-driven parser, and the texts it reads back. */
module ShellSyntax {
  import opened Text

  datatype Out = Inherited | ToPipe | ToFile(name: string)
  datatype Err = InheritedErr | ToStdout | ToErrFile(name: string)

  /** A node of the pipeline; `envVars` is `None` or a dictionary. */
  datatype Node =
    | Command(argv: seq<string>, stdin: Option<string>, stdout: Out, stderr: Err, envVars: Option<map<string, string>>)
    | Chdir(dir: Option<string>)
    | Pipe
    | And
    | Or
  {
    predicate IsCommand() { Command? || Chdir? }
  }

  /** The states of `Pipeline.parse`. */
  datatype Mode = Begin | InCommand | InChdir | ForStderr | ForStdout | ForStdin

  // ---------- Environment assignments: ^([a-zA-Z0-9_]+)=(\S+)$ ----------

  predicate IsNameChar(c: char) { 'a' <= c <= 'z' || 'A' <= c <= 'Z' || '0' <= c <= '9' || c == '_' }

  predicate IsSpace(c: char) {
    c == ' ' || c == '\t' || c == '\n' || c == '\r' || c == 11 as char || c == 12 as char
  }

  /** Index of the first '=', or -1. */
  function FirstEquals(s: string, from: nat): (i: int)
    requires from <= |s|
    ensures i == -1 || (from <= i < |s| && s[i] == '=')
    ensures forall k :: from <= k < (if i == -1 then |s| else i) ==> s[k] != '='
    decreases |s| - from
  {
    if from == |s| then -1 else if s[from] == '=' then from else FirstEquals(s, from + 1)
  }

  /** The end anchor of the expression also stands before one final newline. */
  function ChopNewline(s: string): string {
    if s != "" && s[|s| - 1] == '\n' then s[..|s| - 1] else s
  }

  function EnvMatch(token: string): Option<(string, string)> {
    var i := FirstEquals(token, 0);
    if i <= 0 then None
    else
      var name, value := token[..i], ChopNewline(token[i + 1..]);
      if value != "" && (forall k :: 0 <= k < |name| ==> IsNameChar(name[k])) && (forall k :: 0 <= k < |value| ==> !IsSpace(value[k]))
      then Some((name, value))
      else None
  }

  // ---------- The parser ----------

  /** `current_command`, the nodes committed so far, the mode and the pending assignments. */
  datatype Parsing = Parsing(mode: Mode, current: Option<Node>, pipeline: seq<Node>, env: map<string, string>)

  /** The node being filled in is what the mode says it is. */
  predicate Coherent(p: Parsing) {
    match p.mode
    case Begin => p.current.None?
    case InChdir => p.current.Some? && p.current.value.Chdir? && p.env == map[]
    case _ => p.current.Some? && p.current.value.Command? && p.env == map[]
  }

  function Committed(p: Parsing, op: Node): Parsing
    requires p.current.Some?
  {
    Parsing(Begin, None, p.pipeline + [p.current.value, op], p.env)
  }

  /** One turn of the token loop; `None` is a failed assertion. */
  function Consume(p: Parsing, token: string): Option<Parsing>
    requires Coherent(p)
  {
    match p.mode
    case Begin =>
      var m := EnvMatch(token);
      if m.Some? then Some(p.(env := p.env[m.value.0 := m.value.1]))
      else if token == "cd" then
        if p.env == map[] then Some(p.(current := Some(Chdir(None)), mode := InChdir)) else None
      else
        Some(Parsing(InCommand, Some(Command([token], None, Inherited, InheritedErr, if p.env == map[] then None else Some(p.env))),
                     p.pipeline, map[]))
    case InCommand =>
      var c := p.current.value;
      if token == ">" then Some(p.(mode := ForStdout))
      else if token == "2>" then Some(p.(mode := ForStderr))
      else if token == "2>&1" then if c.stderr.InheritedErr? then Some(p.(current := Some(c.(stderr := ToStdout)))) else None
      else if token == "<" then Some(p.(mode := ForStdin))
      else if token == "|" then
        if c.stdout.Inherited? then Some(Committed(p.(current := Some(c.(stdout := ToPipe))), Pipe)) else None
      else if token == "&&" then Some(Committed(p, And))
      else if token == "||" then Some(Committed(p, Or))
      else Some(p.(current := Some(c.(argv := c.argv + [token]))))
    case InChdir =>
      if token == "&&" then Some(Committed(p, And))
      else if p.current.value.dir.None? then Some(p.(current := Some(Chdir(Some(token))))) else None
    case ForStdout =>
      var c := p.current.value;
      if c.stdout.Inherited? then Some(p.(current := Some(c.(stdout := ToFile(token))), mode := InCommand)) else None
    case ForStderr =>
      var c := p.current.value;
      if c.stderr.InheritedErr? then Some(p.(current := Some(c.(stderr := ToErrFile(token))), mode := InCommand)) else None
    case ForStdin =>
      var c := p.current.value;
      if c.stdin.None? then Some(p.(current := Some(c.(stdin := Some(token))), mode := InCommand)) else None
  }

  /** The rest of the token loop and the final commit. */
  function ParseFrom(p: Parsing, tokens: seq<string>): Option<seq<Node>>
    requires Coherent(p)
    decreases |tokens|
  {
    if tokens == [] then
      if p.current.Some? then Some(p.pipeline + [p.current.value]) else None
    else
      var p' := Consume(p, tokens[0]);
      if p'.None? then None else ParseFrom(p'.value, tokens[1..])
  }

  const START := Parsing(Begin, None, [], map[])

  function Parse(tokens: seq<string>): Option<seq<Node>> { ParseFrom(START, tokens) }

  // ---------- What a successful parse looks like ----------

  /** Commands and operators alternate, starting with a command; the pipe flag and `cd` stand where they may. */
  ghost predicate Prefix(ns: seq<Node>) {
    && (forall i :: 0 <= i < |ns| ==> (ns[i].IsCommand() <==> i % 2 == 0))
    && (forall i :: 0 <= i < |ns| && ns[i].Command? ==> ns[i].argv != [])
    && (forall i :: 0 <= i && i + 1 < |ns| && ns[i].Chdir? ==> ns[i + 1] == And)
    && (forall i :: 0 <= i && i + 1 < |ns| && ns[i].Command? ==> (ns[i].stdout == ToPipe <==> ns[i + 1] == Pipe))
  }

  ghost predicate PipelineShape(ns: seq<Node>) {
    && Prefix(ns) && |ns| % 2 == 1
    && (ns[|ns| - 1].Command? ==> ns[|ns| - 1].stdout != ToPipe)
  }

  ghost predicate ParsingOk(p: Parsing) {
    && Coherent(p) && Prefix(p.pipeline) && |p.pipeline| % 2 == 0
    && (p.current.Some? && p.current.value.Command? ==> p.current.value.stdout != ToPipe && p.current.value.argv != [])
  }

  lemma CommitOk(p: Parsing, op: Node)
    requires Prefix(p.pipeline) && |p.pipeline| % 2 == 0 && !op.IsCommand()
    requires p.current.Some? && p.current.value.IsCommand() && (p.current.value.Command? ==> p.current.value.argv != [])
    requires p.current.value.Chdir? ==> op == And
    requires p.current.value.Command? ==> (p.current.value.stdout == ToPipe <==> op == Pipe)
    ensures Prefix(Committed(p, op).pipeline) && |Committed(p, op).pipeline| % 2 == 0
  {
  }

  lemma ConsumeOk(p: Parsing, token: string)
    requires ParsingOk(p) && Consume(p, token).Some?
    ensures ParsingOk(Consume(p, token).value)
  {
    if p.mode.InCommand? {
      var c := p.current.value;
      if token == "|" { CommitOk(p.(current := Some(c.(stdout := ToPipe))), Pipe); }
      if token == "&&" { CommitOk(p, And); }
      if token == "||" { CommitOk(p, Or); }
    } else if p.mode.InChdir? && token == "&&" {
      CommitOk(p, And);
    }
  }

  lemma {:induction false} ParseFromShape(p: Parsing, tokens: seq<string>)
    requires ParsingOk(p) && ParseFrom(p, tokens).Some?
    ensures PipelineShape(ParseFrom(p, tokens).value)
    decreases |tokens|
  {
    if tokens != [] {
      ConsumeOk(p, tokens[0]);
      ParseFromShape(Consume(p, tokens[0]).value, tokens[1..]);
    }
  }

  /** Every pipeline that `parse` returns has this shape. */
  lemma ParseShape(tokens: seq<string>)
    requires Parse(tokens).Some?
    ensures PipelineShape(Parse(tokens).value)
  {
    ParseFromShape(START, tokens);
  }

  // ---------- Texts ----------

  /** A word after the command name, in any order. */
  datatype Word = Arg(word: string) | StdoutTo(file: string) | StderrTo(file: string) | StderrToStdout | StdinFrom(file: string)

  datatype Stage = Run(env: seq<(string, string)>, name: string, words: seq<Word>) | Cd(dir: Option<string>)

  datatype Line = Last(stage: Stage) | Chain(stage: Stage, op: Node, rest: Line)

  predicate Reserved(w: string) {
    w == ">" || w == "2>" || w == "2>&1" || w == "<" || w == "|" || w == "&&" || w == "||"
  }

  predicate ValidAssignment(a: (string, string)) {
    && a.0 != "" && (forall k :: 0 <= k < |a.0| ==> IsNameChar(a.0[k]))
    && a.1 != "" && (forall k :: 0 <= k < |a.1| ==> !IsSpace(a.1[k]))
  }

  /** Each stream is redirected at most once; `c` is the command so far. */
  predicate ValidWords(c: Node, ws: seq<Word>)
    requires c.Command?
    decreases |ws|
  {
    ws == [] || (
      && (match ws[0]
          case Arg(w) => !Reserved(w)
          case StdoutTo(_) => c.stdout.Inherited?
          case StderrTo(_) => c.stderr.InheritedErr?
          case StderrToStdout => c.stderr.InheritedErr?
          case StdinFrom(_) => c.stdin.None?)
      && ValidWords(WithWord(c, ws[0]), ws[1..]))
  }

  function WithWord(c: Node, w: Word): (r: Node)
    requires c.Command?
    ensures r.Command?
  {
    match w
    case Arg(a) => c.(argv := c.argv + [a])
    case StdoutTo(f) => c.(stdout := ToFile(f))
    case StderrTo(f) => c.(stderr := ToErrFile(f))
    case StderrToStdout => c.(stderr := ToStdout)
    case StdinFrom(f) => c.(stdin := Some(f))
  }

  function WithWords(c: Node, ws: seq<Word>): (r: Node)
    requires c.Command?
    ensures r.Command?
    decreases |ws|
  {
    if ws == [] then c else WithWords(WithWord(c, ws[0]), ws[1..])
  }

  function Assign(m: map<string, string>, env: seq<(string, string)>): map<string, string>
    decreases |env|
  {
    if env == [] then m else Assign(m[env[0].0 := env[0].1], env[1..])
  }

  function Bare(env: seq<(string, string)>, name: string): Node {
    Command([name], None, Inherited, InheritedErr, if env == [] then None else Some(Assign(map[], env)))
  }

  /** The node a stage stands for. */
  function NodeOf(s: Stage): (n: Node)
    ensures if s.Run? then n.Command? else n.Chdir?
  {
    match s
    case Run(env, name, words) => WithWords(Bare(env, name), words)
    case Cd(dir) => Chdir(dir)
  }

  predicate ValidStage(s: Stage) {
    match s
    case Run(env, name, words) =>
      && (forall a :: a in env ==> ValidAssignment(a))
      && EnvMatch(name).None? && name != "cd"
      && ValidWords(Bare(env, name), words)
    case Cd(dir) => dir.Some? ==> dir.value != "&&"
  }

  predicate ValidLine(t: Line) {
    match t
    case Last(s) => ValidStage(s)
    case Chain(s, op, rest) =>
      && ValidStage(s) && !op.IsCommand() && ValidLine(rest)
      && (s.Cd? ==> op == And)
      && (s.Run? && op == Pipe ==> NodeOf(s).stdout.Inherited?)
  }

  function Linked(s: Stage, op: Node): Node {
    var n := NodeOf(s);
    if op == Pipe && n.Command? then n.(stdout := ToPipe) else n
  }

  function Nodes(t: Line): seq<Node> {
    match t
    case Last(s) => [NodeOf(s)]
    case Chain(s, op, rest) =>
      [Linked(s, op), op] + Nodes(rest)
  }

  function WordTokens(ws: seq<Word>): seq<string> {
    if ws == [] then []
    else
      (match ws[0]
       case Arg(w) => [w]
       case StdoutTo(f) => [">", f]
       case StderrTo(f) => ["2>", f]
       case StderrToStdout => ["2>&1"]
       case StdinFrom(f) => ["<", f]) + WordTokens(ws[1..])
  }

  function EnvTokens(env: seq<(string, string)>): seq<string> {
    if env == [] then [] else [env[0].0 + "=" + env[0].1] + EnvTokens(env[1..])
  }

  function StageTokens(s: Stage): seq<string> {
    match s
    case Run(env, name, words) => EnvTokens(env) + ([name] + WordTokens(words))
    case Cd(dir) => ["cd"] + (if dir.Some? then [dir.value] else [])
  }

  function OpToken(op: Node): string {
    if op == Pipe then "|" else if op == And then "&&" else "||"
  }

  function Tokens(t: Line): seq<string> {
    match t
    case Last(s) => StageTokens(s)
    case Chain(s, op, rest) => StageTokens(s) + ([OpToken(op)] + Tokens(rest))
  }

  lemma AssignmentMatches(a: (string, string))
    requires ValidAssignment(a)
    ensures EnvMatch(a.0 + "=" + a.1) == Some(a)
  {
    var token := a.0 + "=" + a.1;
    var i := FirstEquals(token, 0);
    assert token[|a.0|] == '=';
    assert forall k :: 0 <= k < |a.0| ==> token[k] == a.0[k] && token[k] != '=';
    assert i == |a.0| && token[..i] == a.0 && token[i + 1..] == a.1;
  }

  lemma ParseStep(p: Parsing, token: string, rest: seq<string>)
    requires Coherent(p) && Consume(p, token).Some?
    ensures ParseFrom(p, [token] + rest) == ParseFrom(Consume(p, token).value, rest)
  {
    assert ([token] + rest)[1..] == rest;
  }

  lemma ParseAssignment(m: map<string, string>, pipeline: seq<Node>, a: (string, string), rest: seq<string>)
    requires ValidAssignment(a)
    ensures ParseFrom(Parsing(Begin, None, pipeline, m), [a.0 + "=" + a.1] + rest) ==
            ParseFrom(Parsing(Begin, None, pipeline, m[a.0 := a.1]), rest)
  {
    AssignmentMatches(a);
    ParseStep(Parsing(Begin, None, pipeline, m), a.0 + "=" + a.1, rest);
  }

  lemma {:induction false} ParseEnv(m: map<string, string>, pipeline: seq<Node>, env: seq<(string, string)>, rest: seq<string>)
    requires forall a :: a in env ==> ValidAssignment(a)
    ensures ParseFrom(Parsing(Begin, None, pipeline, m), EnvTokens(env) + rest) ==
            ParseFrom(Parsing(Begin, None, pipeline, Assign(m, env)), rest)
    decreases |env|
  {
    if env == [] {
      assert EnvTokens(env) + rest == rest;
    } else {
      var a := env[0];
      assert a in env && forall b :: b in env[1..] ==> b in env;
      EnvTokensCons(env, rest);
      ParseAssignment(m, pipeline, a, EnvTokens(env[1..]) + rest);
      ParseEnv(m[a.0 := a.1], pipeline, env[1..], rest);
    }
  }

  lemma EnvTokensCons(env: seq<(string, string)>, rest: seq<string>)
    requires env != []
    ensures EnvTokens(env) + rest == [env[0].0 + "=" + env[0].1] + (EnvTokens(env[1..]) + rest)
  {
  }

  lemma {:induction false} ParseWords(c: Node, pipeline: seq<Node>, ws: seq<Word>, rest: seq<string>)
    requires c.Command? && ValidWords(c, ws)
    ensures ParseFrom(Parsing(InCommand, Some(c), pipeline, map[]), WordTokens(ws) + rest) ==
            ParseFrom(Parsing(InCommand, Some(WithWords(c, ws)), pipeline, map[]), rest)
    decreases |ws|
  {
    var p := Parsing(InCommand, Some(c), pipeline, map[]);
    if ws == [] {
      assert WordTokens(ws) + rest == rest;
    } else {
      var tokens, later := WordTokens(ws) + rest, WordTokens(ws[1..]) + rest;
      var p' := Parsing(InCommand, Some(WithWord(c, ws[0])), pipeline, map[]);
      if ws[0].Arg? || ws[0].StderrToStdout? {
        assert tokens[1..] == later;
        assert Consume(p, tokens[0]) == Some(p');
      } else {
        assert tokens[1..][1..] == later;
        assert Consume(p, tokens[0]).Some? && Consume(Consume(p, tokens[0]).value, tokens[1..][0]) == Some(p');
      }
      ParseWords(WithWord(c, ws[0]), pipeline, ws[1..], rest);
    }
  }

  lemma {:induction false} AssignKeeps(m: map<string, string>, env: seq<(string, string)>)
    ensures m.Keys <= Assign(m, env).Keys
    ensures env != [] ==> Assign(m, env) != map[]
    decreases |env|
  {
    if env != [] {
      AssignKeeps(m[env[0].0 := env[0].1], env[1..]);
      assert env[0].0 in Assign(m, env).Keys;
    }
  }

  lemma ParseName(env: seq<(string, string)>, name: string, pipeline: seq<Node>, rest: seq<string>)
    requires EnvMatch(name).None? && name != "cd"
    ensures ParseFrom(Parsing(Begin, None, pipeline, Assign(map[], env)), [name] + rest) ==
            ParseFrom(Parsing(InCommand, Some(Bare(env, name)), pipeline, map[]), rest)
  {
    AssignKeeps(map[], env);
    ParseStep(Parsing(Begin, None, pipeline, Assign(map[], env)), name, rest);
  }

  lemma ParseCd(dir: Option<string>, pipeline: seq<Node>, rest: seq<string>)
    requires dir.Some? ==> dir.value != "&&"
    ensures ParseFrom(Parsing(Begin, None, pipeline, map[]), StageTokens(Cd(dir)) + rest) ==
            ParseFrom(Parsing(InChdir, Some(Chdir(dir)), pipeline, map[]), rest)
  {
    assert EnvMatch("cd").None?;
    var p := Parsing(Begin, None, pipeline, map[]);
    if dir.Some? {
      assert StageTokens(Cd(dir)) + rest == ["cd"] + ([dir.value] + rest);
      ParseStep(p, "cd", [dir.value] + rest);
      ParseStep(Parsing(InChdir, Some(Chdir(None)), pipeline, map[]), dir.value, rest);
    } else {
      assert StageTokens(Cd(dir)) == ["cd"];
      ParseStep(p, "cd", rest);
    }
  }

  /** After the tokens of a stage the parser holds that stage's node. */
  lemma ParseStage(s: Stage, pipeline: seq<Node>, rest: seq<string>)
    requires ValidStage(s)
    ensures ParseFrom(Parsing(Begin, None, pipeline, map[]), StageTokens(s) + rest) ==
            ParseFrom(Parsing(if s.Run? then InCommand else InChdir, Some(NodeOf(s)), pipeline, map[]), rest)
  {
    match s
    case Run(env, name, words) =>
      var after := [name] + (WordTokens(words) + rest);
      calc {
        ParseFrom(Parsing(Begin, None, pipeline, map[]), StageTokens(s) + rest);
        { assert StageTokens(s) + rest == EnvTokens(env) + after; }
        ParseFrom(Parsing(Begin, None, pipeline, map[]), EnvTokens(env) + after);
        { ParseEnv(map[], pipeline, env, after); }
        ParseFrom(Parsing(Begin, None, pipeline, Assign(map[], env)), after);
        { ParseName(env, name, pipeline, WordTokens(words) + rest); }
        ParseFrom(Parsing(InCommand, Some(Bare(env, name)), pipeline, map[]), WordTokens(words) + rest);
        { ParseWords(Bare(env, name), pipeline, words, rest); }
        ParseFrom(Parsing(InCommand, Some(NodeOf(s)), pipeline, map[]), rest);
      }
    case Cd(dir) => ParseCd(dir, pipeline, rest);
  }

  /** The operator token commits the node held and its operator. */
  lemma ParseOp(s: Stage, op: Node, pipeline: seq<Node>, rest: seq<string>)
    requires !op.IsCommand() && (s.Cd? ==> op == And) && (s.Run? && op == Pipe ==> NodeOf(s).stdout.Inherited?)
    ensures ParseFrom(Parsing(if s.Run? then InCommand else InChdir, Some(NodeOf(s)), pipeline, map[]), [OpToken(op)] + rest) ==
            ParseFrom(Parsing(Begin, None, pipeline + [Linked(s, op), op], map[]), rest)
  {
    var p := Parsing(if s.Run? then InCommand else InChdir, Some(NodeOf(s)), pipeline, map[]);
    var tokens := [OpToken(op)] + rest;
    assert tokens[0] == OpToken(op) && tokens[1..] == rest;
    assert Consume(p, tokens[0]) == Some(Parsing(Begin, None, pipeline + [Linked(s, op), op], map[]));
  }

  lemma ParseLast(s: Stage, pipeline: seq<Node>)
    requires ValidStage(s)
    ensures ParseFrom(Parsing(Begin, None, pipeline, map[]), StageTokens(s)) == Some(pipeline + [NodeOf(s)])
  {
    ParseStage(s, pipeline, []);
    assert StageTokens(s) + [] == StageTokens(s);
  }

  lemma ParseLinked(s: Stage, op: Node, pipeline: seq<Node>, rest: seq<string>)
    requires ValidStage(s) && !op.IsCommand() && (s.Cd? ==> op == And) && (s.Run? && op == Pipe ==> NodeOf(s).stdout.Inherited?)
    ensures ParseFrom(Parsing(Begin, None, pipeline, map[]), StageTokens(s) + ([OpToken(op)] + rest)) ==
            ParseFrom(Parsing(Begin, None, pipeline + [Linked(s, op), op], map[]), rest)
  {
    ParseStage(s, pipeline, [OpToken(op)] + rest);
    ParseOp(s, op, pipeline, rest);
  }

  lemma {:induction false} ParseLine(t: Line, pipeline: seq<Node>)
    requires ValidLine(t)
    ensures ParseFrom(Parsing(Begin, None, pipeline, map[]), Tokens(t)) == Some(pipeline + Nodes(t))
    decreases t
  {
    match t
    case Last(s) => ParseLast(s, pipeline);
    case Chain(s, op, rest) =>
      ParseLinked(s, op, pipeline, Tokens(rest));
      ParseLine(rest, pipeline + [Linked(s, op), op]);
      assert pipeline + [Linked(s, op), op] + Nodes(rest) == pipeline + Nodes(t);
  }

  /** `parse` reads back every well-formed pipeline text. */
  lemma ParseInvertsTokens(t: Line)
    requires ValidLine(t)
    ensures Parse(Tokens(t)) == Some(Nodes(t))
  {
    ParseLine(t, []);
    assert [] + Nodes(t) == Nodes(t);
  }
}
