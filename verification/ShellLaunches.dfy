/** What each process launched by `Pipeline.run` is given, read off the pipeline itself, and that each is awaited. */
module ShellLaunches {
  import opened Text
  import opened ShellSyntax
  import opened ShellRun

  // ---------- Read off the pipeline ----------

  /** The directory after every `cd` before position `p`. */
  function DirAt(ns: seq<Node>, p: nat): string
    requires p <= |ns|
  {
    if p == 0 then "."
    else if ns[p - 1].Chdir? && ns[p - 1].dir.Some? then Join(DirAt(ns, p - 1), ns[p - 1].dir.value)
    else DirAt(ns, p - 1)
  }

  /** Where the `cd`s before position `p` lead, read without joining paths: whether from the root, and the names to
      enter one after the other, `.` being where the program runs. */
  function PathAt(ns: seq<Node>, p: nat): (bool, seq<string>)
    requires p <= |ns|
  {
    if p == 0 then (false, ["."])
    else if ns[p - 1].Chdir? && ns[p - 1].dir.Some? then
      var dir := ns[p - 1].dir.value;
      if Absolute(dir) then (true, Components(dir)) else (PathAt(ns, p - 1).0, PathAt(ns, p - 1).1 + Components(dir))
    else PathAt(ns, p - 1)
  }

  lemma {:induction false} DirAtMeans(ns: seq<Node>, p: nat)
    requires p <= |ns|
    ensures (Absolute(DirAt(ns, p)), Components(DirAt(ns, p))) == PathAt(ns, p)
  {
    hide Absolute, Components, Join;
    if p == 0 {
      DotMeans();
    } else {
      DirAtMeans(ns, p - 1);
      if ns[p - 1].Chdir? && ns[p - 1].dir.Some? {
        JoinMeans(DirAt(ns, p - 1), ns[p - 1].dir.value);
      }
    }
  }

  lemma DotMeans()
    ensures !Absolute(".") && Components(".") == ["."]
  {
    assert "."[1..] == "" && "" + ['.'] == ".";
    assert Parts("", ".") == Parts(".", "");
  }

  /** The process starts where the `cd`s before it lead. */
  ghost predicate StartsWhereWritten(ns: seq<Node>, e: Event)
    requires e.Launch? && e.proc <= |ns|
  {
    PathAt(ns, e.proc) == if e.cwd.None? then (false, ["."]) else (Absolute(e.cwd.value), Components(e.cwd.value))
  }

  /** The command whose output the command at `p` reads: the one before the pipe, across any `cd` in between. */
  function Feeder(ns: seq<Node>, p: nat): Option<nat>
    requires p <= |ns|
  {
    if p < 2 then None
    else if ns[p - 1] == Pipe then Some(p - 2)
    else if ns[p - 2].Chdir? then Feeder(ns, p - 2)
    else None
  }

  /** `s` is the file `name`, opened for writing, or the null device if that is what `name` says. */
  ghost predicate WritesTo(log: seq<Event>, s: Stream, name: string) {
    if name == "NUL:" || name == "/dev/null" then s == At(DevNull)
    else s.At? && s.handle.File? && OpenWrite(s.handle.id, name) in log
  }

  ghost predicate ReadsFrom(log: seq<Event>, s: Stream, name: string) {
    s.At? && s.handle.File? && OpenRead(s.handle.id, name) in log
  }

  ghost predicate StdinRight(ns: seq<Node>, log: seq<Event>, p: nat, s: Stream)
    requires p < |ns| && ns[p].Command?
  {
    match Feeder(ns, p)
    case Some(q) => s == FromPipe(q)
    case None => if ns[p].stdin.Some? then ReadsFrom(log, s, ns[p].stdin.value) else s == Default
  }

  ghost predicate StdoutRight(log: seq<Event>, c: Node, s: Stream)
    requires c.Command?
  {
    match c.stdout
    case Inherited => s == Default
    case ToPipe => s == IntoPipe
    case ToFile(name) => WritesTo(log, s, name)
  }

  ghost predicate StderrRight(log: seq<Event>, c: Node, s: Stream)
    requires c.Command?
  {
    match c.stderr
    case InheritedErr => s == Default
    case ToStdout => s == Merged
    case ToErrFile(name) => WritesTo(log, s, name)
  }

  ghost predicate LaunchRight(ns: seq<Node>, log: seq<Event>, e: Event)
    requires e.Launch?
  {
    && e.proc < |ns| && ns[e.proc].Command?
    && e.argv == ns[e.proc].argv && e.env == ns[e.proc].envVars
    && e.cwd == (if DirAt(ns, e.proc) == "." then None else Some(DirAt(ns, e.proc)))
    && StdinRight(ns, log, e.proc, e.stdin)
    && StdoutRight(log, ns[e.proc], e.stdout)
    && StderrRight(log, ns[e.proc], e.stderr)
  }

  ghost predicate AllRight(ns: seq<Node>, log: seq<Event>) {
    forall e :: e in log && e.Launch? ==> LaunchRight(ns, log, e)
  }

  // ---------- Every launch in a run is right ----------

  /** What the loop knows before it takes the node at `p`. */
  ghost predicate Ready(ns: seq<Node>, p: nat, st: St)
    requires p <= |ns|
  {
    && st.cwd == DirAt(ns, p)
    && Feeder(ns, p) == (if st.piping && st.piped != [] then Some(st.piped[|st.piped| - 1]) else None)
    && AllRight(ns, st.log)
  }

  /** More events that launch nothing leave the launches right. */
  lemma Grown(ns: seq<Node>, log: seq<Event>, more: seq<Event>)
    requires AllRight(ns, log) && forall e :: e in more ==> !e.Launch?
    ensures AllRight(ns, log + more)
  {
    hide DirAt, Feeder;
    forall e | e in log + more && e.Launch? ensures LaunchRight(ns, log + more, e) {
      assert e in log;
      assert LaunchRight(ns, log, e);
    }
  }

  function OutEvents(st: St, name: string): seq<Event> {
    if name == "NUL:" || name == "/dev/null" then [] else [OpenWrite(st.fileCount, name)]
  }

  lemma OpenOutLogs(st: St, name: string)
    ensures OpenOut(st, name).log == st.log + OutEvents(st, name) && OpenOut(st, name).files != []
    ensures WritesTo(OutEvents(st, name), Newest(OpenOut(st, name)), name)
  {
  }

  lemma AddInLogs(st: St, c: Node) returns (opens: seq<Event>)
    requires c.Command? && (st.piping ==> st.piped != [])
    ensures AddIn(st, c).log == st.log + opens && forall o :: o in opens ==> o.OpenRead?
    ensures !st.piping ==> if c.stdin.Some? then ReadsFrom(opens, InStream(st, AddIn(st, c), c), c.stdin.value)
                           else InStream(st, AddIn(st, c), c) == Default
    ensures st.piping ==> InStream(st, AddIn(st, c), c) == FromPipe(st.piped[|st.piped| - 1])
  {
    opens := if !st.piping && c.stdin.Some? then [OpenRead(st.fileCount, c.stdin.value)] else [];
  }

  lemma AddOutLogs(st: St, c: Node) returns (opens: seq<Event>)
    requires c.Command?
    ensures AddOut(st, c).log == st.log + opens && forall o :: o in opens ==> o.OpenWrite?
    ensures StdoutRight(opens, c, OutStream(st, AddOut(st, c), c))
  {
    if c.stdout.ToFile? {
      opens := OutEvents(st, c.stdout.name);
      OpenOutLogs(st, c.stdout.name);
    } else {
      opens := [];
    }
  }

  lemma AddErrLogs(st: St, c: Node) returns (opens: seq<Event>)
    requires c.Command?
    ensures AddErr(st, c).log == st.log + opens && forall o :: o in opens ==> o.OpenWrite?
    ensures StderrRight(opens, c, ErrStream(st, AddErr(st, c), c))
  {
    if c.stderr.ToErrFile? {
      opens := OutEvents(st, c.stderr.name);
      OpenOutLogs(st, c.stderr.name);
    } else {
      opens := [];
    }
  }

  /** More events make no stream wrong. */
  lemma StreamsGrown(log: seq<Event>, more: seq<Event>, c: Node)
    requires c.Command? && forall e :: e in log ==> e in more
    ensures forall s :: StdoutRight(log, c, s) ==> StdoutRight(more, c, s)
    ensures forall s :: StderrRight(log, c, s) ==> StderrRight(more, c, s)
    ensures forall s, name :: ReadsFrom(log, s, name) ==> ReadsFrom(more, s, name)
  {
  }

  /** The events of starting a command: its files are opened, then it is launched. */
  lemma StartLaunches(st: St, c: Node, pos: nat) returns (opens: seq<Event>, e: Event)
    requires c.Command? && (st.piping ==> st.piped != [])
    ensures Start(st, c, pos).log == st.log + opens + [e]
    ensures forall o :: o in opens ==> o.OpenRead? || o.OpenWrite?
    ensures e.Launch? && e.proc == pos && e.argv == c.argv && e.env == c.envVars
    ensures e.cwd == if st.cwd == "." then None else Some(st.cwd)
    ensures st.piping ==> e.stdin == FromPipe(st.piped[|st.piped| - 1])
    ensures !st.piping ==> if c.stdin.Some? then ReadsFrom(opens, e.stdin, c.stdin.value) else e.stdin == Default
    ensures StdoutRight(opens, c, e.stdout) && StderrRight(opens, c, e.stderr)
  {
    var opens1 := AddInLogs(st, c);
    var st1 := AddIn(st, c);
    var opens2 := AddOutLogs(st1, c);
    var st2 := AddOut(st1, c);
    var opens3 := AddErrLogs(st2, c);
    var st3 := AddErr(st2, c);
    opens := opens1 + opens2 + opens3;
    e := Start(st, c, pos).log[|st3.log|];
    hide AddIn, AddOut, AddErr, InStream, OutStream, ErrStream, StdoutRight, StderrRight, ReadsFrom;
    assert Start(st, c, pos).log == st3.log + [e];
    Associate(st.log, opens1, opens2);
    Associate(st.log, opens1 + opens2, opens3);
    StreamsGrown(opens1, opens, c);
    StreamsGrown(opens2, opens, c);
    StreamsGrown(opens3, opens, c);
  }

  lemma StartRight(ns: seq<Node>, p: nat, st: St)
    requires p < |ns| && ns[p].Command? && (st.piping ==> st.piped != []) && Ready(ns, p, st)
    ensures AllRight(ns, Start(st, ns[p], p).log)
  {
    var opens, e := StartLaunches(st, ns[p], p);
    hide Start, DirAt, Feeder;
    Grown(ns, st.log, opens);
    var log := st.log + opens;
    forall x | x in log + [e] && x.Launch? ensures LaunchRight(ns, log + [e], x) {
      if x in log { assert LaunchRight(ns, log, x); }
    }
  }

  lemma FinishedRight(ns: seq<Node>, st: St)
    requires AllRight(ns, st.log)
    ensures AllRight(ns, Finished(st).log)
  {
    Grown(ns, st.log, Waits(st.piped));
    ClosesOnly(st.files);
    Grown(ns, st.log + Waits(st.piped), Closes(st.files));
  }

  lemma {:induction false} ClosesOnly(files: seq<Handle>)
    ensures forall e :: e in Closes(files) ==> e.Close?
  {
    if files != [] { ClosesOnly(files[1..]); }
  }

  /** How the directory and the feeder of the next command follow from the node at `p` and the operator behind it. */
  lemma NextReady(ns: seq<Node>, p: nat)
    requires p + 2 <= |ns| && ns[p].IsCommand() && !ns[p + 1].IsCommand() && (ns[p].Chdir? ==> ns[p + 1] == And)
    ensures DirAt(ns, p + 2) == if ns[p].Chdir? && ns[p].dir.Some? then Join(DirAt(ns, p), ns[p].dir.value) else DirAt(ns, p)
    ensures Feeder(ns, p + 2) == if ns[p].Chdir? then Feeder(ns, p) else if ns[p + 1] == Pipe then Some(p) else None
  {
    assert DirAt(ns, p + 2) == DirAt(ns, p + 1);
  }

  lemma {:induction false} RunFromRight(ns: seq<Node>, p: nat, st: St, exit: nat -> int)
    requires p < |ns| && PipelineShape(ns[p..]) && (st.piping ==> st.piped != []) && Ready(ns, p, st)
    ensures AllRight(ns, RunFrom(ns[p..], p, st, exit).st.log)
    decreases |ns| - p
  {
    var rest := ns[p..];
    hide Start, AllRight, Finished, DirAt, Feeder;
    assert rest[0] == ns[p];
    if |rest| > 1 {
      TailShape(rest);
      assert rest[1] == ns[p + 1] && rest[2..] == ns[p + 2..];
      NextReady(ns, p);
    }
    if ns[p].Chdir? {
      if |rest| > 1 && ns[p].dir.Some? {
        assert ns[p + 1] == And;
        RunFromRight(ns, p + 2, st.(cwd := Join(st.cwd, ns[p].dir.value)), exit);
      }
    } else {
      StartRight(ns, p, st);
      var started := Start(st, ns[p], p);
      StartKeeps(st, ns[p], p);
      FinishedKeeps(started);
      FinishedRight(ns, started);
      if |rest| > 1 {
        if ns[p + 1] == Pipe { RunFromRight(ns, p + 2, started.(piping := true), exit); }
        else { RunFromRight(ns, p + 2, Finished(started), exit); }
      }
    }
  }

  lemma StartKeeps(st: St, c: Node, pos: nat)
    requires c.Command? && (st.piping ==> st.piped != [])
    ensures Start(st, c, pos).cwd == st.cwd && Start(st, c, pos).piped == st.piped + [pos]
  {
  }

  lemma FinishedKeeps(st: St)
    ensures Finished(st).cwd == st.cwd && !Finished(st).piping
  {
  }

  /** Every process a run launches has the arguments, environment and redirections of the command at its position,
      reads from the command before its pipe, and starts in the directory that all the `cd`s before it lead to. */
  lemma LaunchesAsWritten(ns: seq<Node>, exit: nat -> int)
    requires PipelineShape(ns)
    ensures AllRight(ns, RunPipeline(ns, exit).st.log)
    ensures forall e :: e in RunPipeline(ns, exit).st.log && e.Launch? ==> e.proc < |ns| && StartsWhereWritten(ns, e)
  {
    assert ns[0..] == ns;
    RunFromRight(ns, 0, INIT, exit);
    var log := RunPipeline(ns, exit).st.log;
    DotMeans();
    hide Absolute, Components, Join, PathAt;
    forall e | e in log && e.Launch? ensures e.proc < |ns| && StartsWhereWritten(ns, e) {
      assert LaunchRight(ns, log, e);
      DirAtMeans(ns, e.proc);
    }
  }

  // ---------- Every process is launched at most once and awaited ----------

  function TimesLaunched(log: seq<Event>, p: nat): nat {
    if log == [] then 0
    else TimesLaunched(log[..|log| - 1], p) + (if log[|log| - 1].Launch? && log[|log| - 1].proc == p then 1 else 0)
  }

  function TimesAwaited(log: seq<Event>, p: nat): nat {
    if log == [] then 0
    else TimesAwaited(log[..|log| - 1], p) + (if log[|log| - 1] == Wait(p) then 1 else 0)
  }

  function Pending(procs: seq<nat>, p: nat): nat {
    if procs == [] then 0 else Pending(procs[..|procs| - 1], p) + (if procs[|procs| - 1] == p then 1 else 0)
  }

  /** Before position `bound` is started: no later process has been launched, none twice,
      and those launched but not awaited are exactly the members of the current group. */
  predicate AwaitedAt(log: seq<Event>, piped: seq<nat>, bound: nat, p: nat) {
    && TimesLaunched(log, p) <= (if p < bound then 1 else 0)
    && TimesAwaited(log, p) + Pending(piped, p) == TimesLaunched(log, p)
  }

  lemma {:induction false} LaunchedAppend(log: seq<Event>, more: seq<Event>, p: nat)
    ensures TimesLaunched(log + more, p) == TimesLaunched(log, p) + TimesLaunched(more, p)
    ensures TimesAwaited(log + more, p) == TimesAwaited(log, p) + TimesAwaited(more, p)
    decreases |more|
  {
    if more == [] {
      assert log + more == log;
    } else {
      var last := |more| - 1;
      LaunchedAppend(log, more[..last], p);
      assert (log + more)[..|log + more| - 1] == log + more[..last];
    }
  }

  lemma {:induction false} NeitherCount(more: seq<Event>, p: nat)
    requires forall e :: e in more ==> !e.Launch? && !e.Wait?
    ensures TimesLaunched(more, p) == 0 && TimesAwaited(more, p) == 0
  {
    if more != [] {
      var last := |more| - 1;
      assert more[last] in more;
      NeitherCount(more[..last], p);
    }
  }

  lemma {:induction false} WaitsCounted(procs: seq<nat>, p: nat)
    ensures TimesLaunched(Waits(procs), p) == 0 && TimesAwaited(Waits(procs), p) == Pending(procs, p)
  {
    if procs != [] {
      var last := |procs| - 1;
      WaitsCounted(procs[..last], p);
      assert Waits(procs)[..last] == Waits(procs[..last]);
    }
  }

  lemma LaunchCounts(log: seq<Event>, opens: seq<Event>, e: Event, p: nat)
    requires e.Launch? && forall o :: o in opens ==> o.OpenRead? || o.OpenWrite?
    ensures TimesLaunched(log + opens + [e], p) == TimesLaunched(log, p) + (if e.proc == p then 1 else 0)
    ensures TimesAwaited(log + opens + [e], p) == TimesAwaited(log, p)
  {
    LaunchedAppend(log, opens, p);
    NeitherCount(opens, p);
    assert (log + opens + [e])[..|log + opens|] == log + opens;
  }

  lemma StartsPending(log: seq<Event>, log': seq<Event>, piped: seq<nat>, pos: nat, p: nat)
    requires AwaitedAt(log, piped, pos, p)
    requires TimesLaunched(log', p) == TimesLaunched(log, p) + (if pos == p then 1 else 0)
    requires TimesAwaited(log', p) == TimesAwaited(log, p)
    ensures AwaitedAt(log', piped + [pos], pos + 1, p)
  {
    assert (piped + [pos])[..|piped|] == piped;
  }

  lemma StartAwaited(st: St, c: Node, pos: nat, p: nat)
    requires c.Command? && (st.piping ==> st.piped != []) && AwaitedAt(st.log, st.piped, pos, p)
    ensures AwaitedAt(Start(st, c, pos).log, Start(st, c, pos).piped, pos + 1, p)
  {
    var opens, e := StartLaunches(st, c, pos);
    hide *;
    StartKeeps(st, c, pos);
    LaunchCounts(st.log, opens, e, p);
    StartsPending(st.log, st.log + opens + [e], st.piped, pos, p);
  }

  lemma FinishedAwaited(st: St, bound: nat, p: nat)
    requires AwaitedAt(st.log, st.piped, bound, p)
    ensures AwaitedAt(Finished(st).log, [], bound, p)
  {
    WaitsCounted(st.piped, p);
    LaunchedAppend(st.log, Waits(st.piped), p);
    ClosesOnly(st.files);
    NeitherCount(Closes(st.files), p);
    LaunchedAppend(st.log + Waits(st.piped), Closes(st.files), p);
  }

  lemma Later(log: seq<Event>, piped: seq<nat>, bound: nat, bound': nat, p: nat)
    requires AwaitedAt(log, piped, bound, p) && bound <= bound'
    ensures AwaitedAt(log, piped, bound', p)
  {
  }

  lemma {:induction false} RunFromAwaits(ns: seq<Node>, pos: nat, st: St, exit: nat -> int, p: nat)
    requires PipelineShape(ns) && (st.piping ==> st.piped != []) && AwaitedAt(st.log, st.piped, pos, p)
    ensures var st' := RunFrom(ns, pos, st, exit).st; AwaitedAt(st'.log, st'.piped, pos + |ns|, p)
    ensures RunFrom(ns, pos, st, exit).Returned? ==> RunFrom(ns, pos, st, exit).st.piped == []
    decreases |ns|
  {
    hide Start, AwaitedAt;
    if ns[0].Chdir? {
      Later(st.log, st.piped, pos, pos + |ns|, p);
      if |ns| > 1 && ns[0].dir.Some? {
        TailShape(ns);
        Later(st.log, st.piped, pos, pos + 2, p);
        RunFromAwaits(ns[2..], pos + 2, st.(cwd := Join(st.cwd, ns[0].dir.value)), exit, p);
      }
    } else {
      StartAwaited(st, ns[0], pos, p);
      var started := Start(st, ns[0], pos);
      FinishedAwaited(started, pos + 1, p);
      Later(Finished(started).log, [], pos + 1, pos + |ns|, p);
      if |ns| > 1 {
        TailShape(ns);
        Later(started.log, started.piped, pos + 1, pos + 2, p);
        Later(Finished(started).log, [], pos + 1, pos + 2, p);
        if ns[1] == Pipe { RunFromAwaits(ns[2..], pos + 2, started.(piping := true), exit, p); }
        else { RunFromAwaits(ns[2..], pos + 2, Finished(started), exit, p); }
      }
    }
  }

  /** When a run returns, every process it launched was launched once and has been awaited once. */
  lemma AllAwaited(ns: seq<Node>, exit: nat -> int, p: nat)
    requires PipelineShape(ns) && RunPipeline(ns, exit).Returned?
    ensures TimesAwaited(RunPipeline(ns, exit).st.log, p) == TimesLaunched(RunPipeline(ns, exit).st.log, p) <= 1
  {
    RunFromAwaits(ns, 0, INIT, exit, p);
  }
}
