/** A recursive evaluator of and-or lists, right-nested as the program reads them, and `Pipeline.run` as its refinement. */
module AndOrLists {
  import opened Text
  import opened ShellSyntax
  import opened ShellRun

  /** A command and the `cd dir &&` prefixes right before it. */
  datatype Step = Step(dirs: seq<string>, command: Node)

  /** Commands joined by pipes; never empty. */
  datatype Group = One(step: Step) | Piped(step: Step, rest: Group)

  datatype List = Only(group: Group) | Linked(group: Group, op: Node, rest: List)

  // ---------- The pipeline a list is written as ----------

  function FlattenDirs(dirs: seq<string>): seq<Node> {
    if dirs == [] then [] else [Chdir(Some(dirs[0])), And] + FlattenDirs(dirs[1..])
  }

  function FlattenGroup(g: Group): seq<Node> {
    match g
    case One(s) => FlattenDirs(s.dirs) + [s.command]
    case Piped(s, rest) => FlattenDirs(s.dirs) + ([s.command, Pipe] + FlattenGroup(rest))
  }

  function Flatten(l: List): seq<Node> {
    match l
    case Only(g) => FlattenGroup(g)
    case Linked(g, op, rest) => FlattenGroup(g) + ([op] + Flatten(rest))
  }

  /** Number of nodes a step or a group takes up. */
  function StepSize(s: Step): nat { 2 * |s.dirs| + 1 }

  function GroupSize(g: Group): nat {
    match g
    case One(s) => StepSize(s)
    case Piped(s, rest) => StepSize(s) + 1 + GroupSize(rest)
  }

  // ---------- The recursive evaluator ----------

  function Enter(cwd: string, dirs: seq<string>): string
    decreases |dirs|
  {
    if dirs == [] then cwd else Enter(Join(cwd, dirs[0]), dirs[1..])
  }

  function StartStep(s: Step, pos: nat, st: St): St
    requires s.command.Command? && (st.piping ==> st.piped != [])
  {
    Start(st.(cwd := Enter(st.cwd, s.dirs)), s.command, pos + 2 * |s.dirs|)
  }

  /** Launches every command of the group, each reading from the one before. */
  function StartGroup(g: Group, pos: nat, st: St): (r: St)
    requires Commands(g) && (st.piping ==> st.piped != [])
    ensures r.piped != [] && r.piped[|r.piped| - 1] == LastCommand(g, pos)
  {
    match g
    case One(s) => StartStep(s, pos, st)
    case Piped(s, rest) => StartGroup(rest, pos + StepSize(s) + 1, StartStep(s, pos, st).(piping := true))
  }

  predicate Commands(g: Group) { g.step.command.Command? && (g.Piped? ==> Commands(g.rest)) }

  predicate AllCommands(l: List) { Commands(l.group) && (l.Linked? ==> l.op in {And, Or} && AllCommands(l.rest)) }

  /** Position of the group's last command. */
  function LastCommand(g: Group, pos: nat): nat {
    match g
    case One(s) => pos + 2 * |s.dirs|
    case Piped(s, rest) => LastCommand(rest, pos + StepSize(s) + 1)
  }

  /** Runs a group to its end; its status is that of its last command. */
  function RunGroup(g: Group, pos: nat, st: St, exit: nat -> int): (int, St)
    requires Commands(g) && !st.piping
  {
    (exit(LastCommand(g, pos)), Finished(StartGroup(g, pos, st)))
  }

  /** Right-nested: the first group decides whether anything of the rest is evaluated at all. */
  function Eval(l: List, pos: nat, st: St, exit: nat -> int): (int, St)
    requires AllCommands(l) && !st.piping
    decreases l
  {
    var (status, st') := RunGroup(l.group, pos, st, exit);
    if l.Linked? && Proceeds(l.op, status) then Eval(l.rest, pos + GroupSize(l.group) + 1, st', exit) else (status, st')
  }

  // ---------- `run` refines the evaluator ----------

  lemma ChdirRun(dir: string, ns: seq<Node>, pos: nat, st: St, exit: nat -> int)
    requires PipelineShape(ns) && (st.piping ==> st.piped != [])
    ensures PipelineShape([Chdir(Some(dir)), And] + ns)
    ensures RunFrom([Chdir(Some(dir)), And] + ns, pos, st, exit) == RunFrom(ns, pos + 2, st.(cwd := Join(st.cwd, dir)), exit)
  {
    ChainShape(Chdir(Some(dir)), And, ns);
    assert ([Chdir(Some(dir)), And] + ns)[2..] == ns;
  }

  lemma PipeRun(c: Node, ns: seq<Node>, pos: nat, st: St, exit: nat -> int)
    requires PipelineShape(ns) && (st.piping ==> st.piped != []) && c.Command? && c.argv != [] && c.stdout == ToPipe
    ensures PipelineShape([c, Pipe] + ns)
    ensures RunFrom([c, Pipe] + ns, pos, st, exit) == RunFrom(ns, pos + 2, Start(st, c, pos).(piping := true), exit)
  {
    ChainShape(c, Pipe, ns);
    assert ([c, Pipe] + ns)[2..] == ns;
  }

  lemma {:induction false} DirsRun(dirs: seq<string>, ns: seq<Node>, pos: nat, st: St, exit: nat -> int)
    requires PipelineShape(ns) && (st.piping ==> st.piped != [])
    ensures PipelineShape(FlattenDirs(dirs) + ns)
    ensures RunFrom(FlattenDirs(dirs) + ns, pos, st, exit) ==
            RunFrom(ns, pos + 2 * |dirs|, st.(cwd := Enter(st.cwd, dirs)), exit)
    decreases |dirs|
  {
    hide RunFrom, PipelineShape;
    if dirs == [] {
      assert FlattenDirs(dirs) + ns == ns;
    } else {
      var rest := FlattenDirs(dirs[1..]) + ns;
      assert FlattenDirs(dirs) + ns == [Chdir(Some(dirs[0])), And] + rest;
      DirsRun(dirs[1..], ns, pos + 2, st.(cwd := Join(st.cwd, dirs[0])), exit);
      ChdirRun(dirs[0], rest, pos, st, exit);
    }
  }

  /** Commands have arguments, and write to a pipe exactly when one follows. */
  predicate GroupShape(g: Group) {
    && g.step.command.Command? && g.step.command.argv != []
    && (g.step.command.stdout == ToPipe <==> g.Piped?)
    && (g.Piped? ==> GroupShape(g.rest))
  }

  predicate ListShape(l: List) {
    GroupShape(l.group) && (l.Linked? ==> l.op in {And, Or} && ListShape(l.rest))
  }

  lemma {:induction false} ShapeCommands(g: Group)
    requires GroupShape(g)
    ensures Commands(g)
  {
    if g.Piped? { ShapeCommands(g.rest); }
  }

  lemma {:induction false} ListCommands(l: List)
    requires ListShape(l)
    ensures AllCommands(l)
  {
    ShapeCommands(l.group);
    if l.Linked? { ListCommands(l.rest); }
  }

  /** `tail` is empty or an operator with a pipeline behind it. */
  ghost predicate Tail(tail: seq<Node>) {
    tail == [] || (tail[0] in {And, Or} && PipelineShape(tail[1..]))
  }

  /** What the loop does once the last command of a group has been launched. */
  function AfterGroup(tail: seq<Node>, pos: nat, started: St, exit: nat -> int): Outcome
    requires Tail(tail) && started.piped != []
  {
    var status := exit(started.piped[|started.piped| - 1]);
    if tail == [] || !Proceeds(tail[0], status) then Returned(status, Finished(started))
    else RunFrom(tail[1..], pos + 1, Finished(started), exit)
  }

  lemma CommandRun(c: Node, tail: seq<Node>, pos: nat, st: St, exit: nat -> int)
    requires c.Command? && c.argv != [] && c.stdout != ToPipe && Tail(tail) && (st.piping ==> st.piped != [])
    ensures PipelineShape([c] + tail)
    ensures RunFrom([c] + tail, pos, st, exit) == AfterGroup(tail, pos + 1, Start(st, c, pos), exit)
  {
    var started := Start(st, c, pos);
    GroupStatusIsLast(started.piped, exit);
    if tail == [] {
      assert [c] + tail == [c];
    } else {
      ChainShape(c, tail[0], tail[1..]);
      assert [c] + tail == [c, tail[0]] + tail[1..];
      assert ([c] + tail)[2..] == tail[1..];
    }
  }

  lemma {:induction false} GroupRun(g: Group, tail: seq<Node>, pos: nat, st: St, exit: nat -> int)
    requires GroupShape(g) && Commands(g) && Tail(tail) && (st.piping ==> st.piped != [])
    ensures PipelineShape(FlattenGroup(g) + tail)
    ensures RunFrom(FlattenGroup(g) + tail, pos, st, exit) ==
            AfterGroup(tail, pos + GroupSize(g), StartGroup(g, pos, st), exit)
    decreases g
  {
    hide RunFrom, PipelineShape, Start, AfterGroup;
    var s := g.step;
    var pos', st' := pos + 2 * |s.dirs|, st.(cwd := Enter(st.cwd, s.dirs));
    match g
    case One(_) =>
      assert FlattenGroup(g) + tail == FlattenDirs(s.dirs) + ([s.command] + tail);
      CommandRun(s.command, tail, pos', st', exit);
      DirsRun(s.dirs, [s.command] + tail, pos, st, exit);
    case Piped(_, rest) =>
      var ns := FlattenGroup(rest) + tail;
      assert FlattenGroup(g) + tail == FlattenDirs(s.dirs) + ([s.command, Pipe] + ns);
      GroupRun(rest, tail, pos' + 2, Start(st', s.command, pos').(piping := true), exit);
      PipeRun(s.command, ns, pos', st', exit);
      DirsRun(s.dirs, [s.command, Pipe] + ns, pos, st, exit);
  }

  lemma {:induction false} ListRun(l: List, pos: nat, st: St, exit: nat -> int)
    requires ListShape(l) && AllCommands(l) && !st.piping
    ensures PipelineShape(Flatten(l))
    ensures RunFrom(Flatten(l), pos, st, exit) == var (status, st') := Eval(l, pos, st, exit); Returned(status, st')
    decreases l
  {
    hide RunFrom, PipelineShape, Start, StartGroup;
    var g := l.group;
    var started := StartGroup(g, pos, st);
    match l
    case Only(_) =>
      assert FlattenGroup(g) + [] == Flatten(l);
      GroupRun(g, [], pos, st, exit);
      assert AfterGroup([], pos + GroupSize(g), started, exit) == Returned(exit(LastCommand(g, pos)), Finished(started));
    case Linked(_, op, rest) =>
      ListRun(rest, pos + GroupSize(g) + 1, Finished(started), exit);
      var tail := [op] + Flatten(rest);
      assert tail[0] == op && tail[1..] == Flatten(rest);
      GroupRun(g, tail, pos, st, exit);
      assert Flatten(l) == FlattenGroup(g) + tail;
  }

  /** `run` on the pipeline of a list does what the recursive evaluator says: same status, same events, same order. */
  lemma RunRefinesEval(l: List, exit: nat -> int)
    requires ListShape(l)
    ensures AllCommands(l) && PipelineShape(Flatten(l))
    ensures RunPipeline(Flatten(l), exit) == var (status, st) := Eval(l, 0, INIT, exit); Returned(status, st)
  {
    ListCommands(l);
    ListRun(l, 0, INIT, exit);
  }

  // ---------- Every pipeline that can run is a list ----------

  /** The last node is a command, and every `cd` names a directory. */
  ghost predicate Runnable(ns: seq<Node>) {
    ns != [] && ns[|ns| - 1].Command? && forall n :: n in ns && n.Chdir? ==> n.dir.Some?
  }

  function EnterFirst(g: Group, dir: string): Group {
    match g
    case One(s) => One(s.(dirs := [dir] + s.dirs))
    case Piped(s, rest) => Piped(s.(dirs := [dir] + s.dirs), rest)
  }

  /** Putting nodes before the first group puts them before the list. */
  lemma FlattenFront(l: List, g: Group, front: seq<Node>)
    requires FlattenGroup(g) == front + FlattenGroup(l.group)
    ensures Flatten(l.(group := g)) == front + Flatten(l)
  {
    hide FlattenGroup;
    if l.Linked? { Associate(front, FlattenGroup(l.group), [l.op] + Flatten(l.rest)); }
  }

  lemma ShapeFront(l: List, g: Group)
    requires ListShape(l) && GroupShape(g)
    ensures ListShape(l.(group := g))
  {
    hide GroupShape;
  }

  lemma EnterGroup(g: Group, dir: string)
    requires GroupShape(g)
    ensures GroupShape(EnterFirst(g, dir))
    ensures FlattenGroup(EnterFirst(g, dir)) == [Chdir(Some(dir)), And] + FlattenGroup(g)
  {
    var dirs := g.step.dirs;
    assert ([dir] + dirs)[1..] == dirs;
    assert FlattenDirs([dir] + dirs) == [Chdir(Some(dir)), And] + FlattenDirs(dirs);
    hide FlattenDirs;
    var front := [Chdir(Some(dir)), And];
    match g
    case One(s) => Associate(front, FlattenDirs(dirs), [s.command]);
    case Piped(s, rest) => Associate(front, FlattenDirs(dirs), [s.command, Pipe] + FlattenGroup(rest));
  }

  lemma EnterList(l: List, dir: string) returns (r: List)
    requires ListShape(l)
    ensures ListShape(r) && Flatten(r) == [Chdir(Some(dir)), And] + Flatten(l)
  {
    hide Flatten, FlattenGroup, GroupShape;
    var g := EnterFirst(l.group, dir);
    EnterGroup(l.group, dir);
    FlattenFront(l, g, [Chdir(Some(dir)), And]);
    ShapeFront(l, g);
    r := l.(group := g);
  }

  lemma PipeGroup(g: Group, c: Node)
    requires GroupShape(g) && c.Command? && c.argv != [] && c.stdout == ToPipe
    ensures GroupShape(Piped(Step([], c), g))
    ensures FlattenGroup(Piped(Step([], c), g)) == [c, Pipe] + FlattenGroup(g)
  {
    assert FlattenDirs([]) == [];
  }

  lemma PipeList(l: List, c: Node) returns (r: List)
    requires ListShape(l) && c.Command? && c.argv != [] && c.stdout == ToPipe
    ensures ListShape(r) && Flatten(r) == [c, Pipe] + Flatten(l)
  {
    hide Flatten, FlattenGroup, GroupShape;
    var g := Piped(Step([], c), l.group);
    PipeGroup(l.group, c);
    FlattenFront(l, g, [c, Pipe]);
    ShapeFront(l, g);
    r := l.(group := g);
  }

  lemma LinkList(l: List, c: Node, op: Node) returns (r: List)
    requires ListShape(l) && c.Command? && c.argv != [] && c.stdout != ToPipe && op in {And, Or}
    ensures ListShape(r) && Flatten(r) == [c, op] + Flatten(l)
  {
    r := Linked(One(Step([], c)), op, l);
  }

  lemma HeadFacts(ns: seq<Node>)
    requires PipelineShape(ns) && Runnable(ns)
    ensures ns[0].IsCommand() && (ns[0].Chdir? ==> ns[0].dir.Some? && |ns| > 1 && ns[1] == And)
    ensures ns[0].Command? ==> ns[0].argv != [] && (ns[0].stdout == ToPipe <==> |ns| > 1 && ns[1] == Pipe)
    ensures |ns| > 1 ==> ns == [ns[0], ns[1]] + ns[2..] && PipelineShape(ns[2..]) && Runnable(ns[2..])
    ensures |ns| > 1 ==> ns[1] == Pipe || ns[1] == And || ns[1] == Or
  {
    assert ns[0] in ns;
    if |ns| > 1 {
      TailShape(ns);
      assert forall n :: n in ns[2..] ==> n in ns;
      assert ns[2..][|ns| - 3] == ns[|ns| - 1];
    }
  }

  /** The list a pipeline spells out. */
  lemma {:induction false} ListOf(ns: seq<Node>) returns (l: List)
    requires PipelineShape(ns) && Runnable(ns)
    ensures ListShape(l) && Flatten(l) == ns
    decreases |ns|
  {
    HeadFacts(ns);
    hide PipelineShape, Runnable;
    var c := ns[0];
    if |ns| == 1 {
      assert ns == [c];
      l := Only(One(Step([], c)));
    } else {
      hide ListShape, Flatten;
      var rest := ListOf(ns[2..]);
      if c.Chdir? {
        l := EnterList(rest, c.dir.value);
      } else if ns[1] == Pipe {
        l := PipeList(rest, c);
      } else {
        l := LinkList(rest, c, ns[1]);
      }
    }
  }

  /** So every parsed pipeline that does not end in `cd` runs as its and-or list evaluates. */
  lemma ParsedRuns(tokens: seq<string>, exit: nat -> int) returns (l: List)
    requires Parse(tokens).Some? && Runnable(Parse(tokens).value)
    ensures ListShape(l) && AllCommands(l) && Flatten(l) == Parse(tokens).value && PipelineShape(Flatten(l))
    ensures RunPipeline(Flatten(l), exit) == var (status, st) := Eval(l, 0, INIT, exit); Returned(status, st)
  {
    ParseShape(tokens);
    l := ListOf(Parse(tokens).value);
    RunRefinesEval(l, exit);
  }
}
