/** `Pipeline.run` of shellcmd.py without its verbose output: what it opens, launches, awaits and closes, and what
    status it returns, against a recursive evaluator of and-or lists. */
module ShellRun {
  import opened Text
  import opened ShellSyntax

  /** A file object; `DevNull` is the one shared by the whole module. */
  datatype Handle = DevNull | File(id: nat)

  datatype Stream = Default | FromPipe(proc: nat) | IntoPipe | Merged | At(handle: Handle)

  /** Processes are named by the position of their command in the pipeline. */
  datatype Event =
    | OpenRead(id: nat, name: string)
    | OpenWrite(id: nat, name: string)
    | Launch(proc: nat, argv: seq<string>, stdin: Stream, stdout: Stream, stderr: Stream,
             env: Option<map<string, string>>, cwd: Option<string>)
    | Wait(proc: nat)
    | Close(id: nat)

  /** `files_to_close`, `piped_commands`, the loop's state and directory, the events so far and the number of files opened. */
  datatype St = St(files: seq<Handle>, piped: seq<nat>, piping: bool, cwd: string, log: seq<Event>, fileCount: nat)

  const INIT := St([], [], false, ".", [], 0)

  /** Python's `os.path.join`. */
  function Join(a: string, b: string): string {
    if b != "" && b[0] == '/' then b
    else if a == "" || a[|a| - 1] == '/' then a + b
    else a + "/" + b
  }

  // ---------- What a joined path names ----------

  predicate Absolute(path: string) { path != "" && path[0] == '/' }

  function Flush(part: string): seq<string> { if part == "" then [] else [part] }

  /** The non-empty parts between slashes; `part` is what has been read of the current one. */
  function Parts(part: string, rest: string): seq<string>
    decreases |rest|
  {
    if rest == "" then Flush(part)
    else if rest[0] == '/' then Flush(part) + Parts("", rest[1..])
    else Parts(part + [rest[0]], rest[1..])
  }

  function Components(path: string): seq<string> { Parts("", path) }

  lemma {:induction false} PartsSplit(part: string, a: string, b: string)
    ensures Parts(part, a + ("/" + b)) == Parts(part, a) + Parts("", b)
    decreases |a|
  {
    var s := a + ("/" + b);
    if a == "" {
      assert s[0] == '/' && s[1..] == b;
    } else {
      assert s[0] == a[0] && s[1..] == a[1..] + ("/" + b);
      if a[0] == '/' {
        PartsSplit("", a[1..], b);
        Associate(Flush(part), Parts("", a[1..]), Parts("", b));
      } else {
        PartsSplit(part + [a[0]], a[1..], b);
      }
    }
  }

  /** A relative path is entered from the directory so far; an absolute one starts afresh. */
  lemma JoinMeans(a: string, b: string)
    ensures Components(Join(a, b)) == if Absolute(b) then Components(b) else Components(a) + Components(b)
    ensures Absolute(Join(a, b)) <==> Absolute(a) || Absolute(b)
  {
    if Absolute(b) {
    } else if a == "" {
      assert a + b == b;
    } else if a[|a| - 1] == '/' {
      var front := a[..|a| - 1];
      assert a == front + ("/" + "") && a + b == front + ("/" + b);
      PartsSplit("", front, "");
      PartsSplit("", front, b);
    } else {
      assert a + "/" + b == a + ("/" + b);
      PartsSplit("", a, b);
    }
  }

  // ---------- One command ----------

  function OpenIn(st: St, name: string): St {
    st.(files := st.files + [File(st.fileCount)], log := st.log + [OpenRead(st.fileCount, name)], fileCount := st.fileCount + 1)
  }

  /** `_open_out_file`, with the file noted for closing. */
  function OpenOut(st: St, name: string): St {
    if name == "NUL:" || name == "/dev/null" then st.(files := st.files + [DevNull])
    else st.(files := st.files + [File(st.fileCount)], log := st.log + [OpenWrite(st.fileCount, name)], fileCount := st.fileCount + 1)
  }

  function Newest(st: St): Stream
    requires st.files != []
  {
    At(st.files[|st.files| - 1])
  }

  function AddIn(st: St, c: Node): St
    requires c.Command?
  {
    if !st.piping && c.stdin.Some? then OpenIn(st, c.stdin.value) else st
  }

  function AddOut(st: St, c: Node): St
    requires c.Command?
  {
    if c.stdout.ToFile? then OpenOut(st, c.stdout.name) else st
  }

  function AddErr(st: St, c: Node): St
    requires c.Command?
  {
    if c.stderr.ToErrFile? then OpenOut(st, c.stderr.name) else st
  }

  /** The standard input, once `AddIn` has made `st1` of `st`. */
  function InStream(st: St, st1: St, c: Node): Stream
    requires c.Command? && (st.piping ==> st.piped != []) && st1 == AddIn(st, c)
  {
    if st.piping then FromPipe(st.piped[|st.piped| - 1]) else if c.stdin.Some? then Newest(st1) else Default
  }

  function OutStream(st: St, st2: St, c: Node): Stream
    requires c.Command? && st2 == AddOut(st, c)
  {
    match c.stdout case Inherited => Default case ToPipe => IntoPipe case ToFile(_) => Newest(st2)
  }

  function ErrStream(st: St, st3: St, c: Node): Stream
    requires c.Command? && st3 == AddErr(st, c)
  {
    match c.stderr case InheritedErr => Default case ToStdout => Merged case ToErrFile(_) => Newest(st3)
  }

  /** Opens the redirections of `c`, in order, and launches it. */
  function Start(st: St, c: Node, pos: nat): (r: St)
    requires c.Command? && (st.piping ==> st.piped != [])
    ensures r.piped == st.piped + [pos]
  {
    var st1 := AddIn(st, c);
    var st2 := AddOut(st1, c);
    var st3 := AddErr(st2, c);
    var cwd := if st.cwd == "." then None else Some(st.cwd);
    var launch := Launch(pos, c.argv, InStream(st, st1, c), OutStream(st1, st2, c), ErrStream(st2, st3, c), c.envVars, cwd);
    st3.(log := st3.log + [launch], piped := st3.piped + [pos])
  }

  function Waits(procs: seq<nat>): seq<Event> {
    seq(|procs|, i requires 0 <= i < |procs| => Wait(procs[i]))
  }

  function Closes(files: seq<Handle>): seq<Event> {
    if files == [] then [] else (if files[0] == DevNull then [] else [Close(files[0].id)]) + Closes(files[1..])
  }

  /** Awaits the group, closes its files and starts afresh. */
  function Finished(st: St): St {
    St([], [], false, st.cwd, st.log + Waits(st.piped) + Closes(st.files), st.fileCount)
  }

  /** `_exec_piped_commands`: 0 if all are 0, else the last one. */
  function GroupStatus(procs: seq<nat>, exit: nat -> int): int
    requires procs != []
  {
    if exists i :: 0 <= i < |procs| && exit(procs[i]) != 0 then exit(procs[|procs| - 1]) else 0
  }

  /** The status of a pipe group is that of its last command. */
  lemma GroupStatusIsLast(procs: seq<nat>, exit: nat -> int)
    requires procs != []
    ensures GroupStatus(procs, exit) == exit(procs[|procs| - 1])
  {
  }

  /** Whether a status lets what is behind the operator be run. */
  predicate Proceeds(op: Node, status: int) { if op == And then status == 0 else status != 0 }

  lemma ProceedsMeans(status: int)
    ensures Proceeds(And, status) <==> status == 0
    ensures Proceeds(Or, status) <==> status != 0
  {
  }

  // ---------- The loop of `run` ----------

  datatype Outcome = Returned(status: int, st: St) | Raised(st: St)

  function RunFrom(ns: seq<Node>, pos: nat, st: St, exit: nat -> int): Outcome
    requires PipelineShape(ns) && (st.piping ==> st.piped != [])
    decreases |ns|
  {
    var node := ns[0];
    if node.Chdir? then
      if |ns| == 1 || node.dir.None? then Raised(st)
      else
        TailShape(ns);
        RunFrom(ns[2..], pos + 2, st.(cwd := Join(st.cwd, node.dir.value)), exit)
    else
      var started := Start(st, node, pos);
      if |ns| == 1 then Returned(GroupStatus(started.piped, exit), Finished(started))
      else
        TailShape(ns);
        if ns[1] == Pipe then RunFrom(ns[2..], pos + 2, started.(piping := true), exit)
        else
          var status := GroupStatus(started.piped, exit);
          if (ns[1] == Or) == (status == 0) then Returned(status, Finished(started))
          else RunFrom(ns[2..], pos + 2, Finished(started), exit)
  }

  lemma TailShape(ns: seq<Node>)
    requires PipelineShape(ns) && |ns| > 1
    ensures PipelineShape(ns[2..]) && (ns[1] == Pipe || ns[1] == And || ns[1] == Or)
  {
    assert ns[|ns| - 1] == ns[2..][|ns| - 3];
  }

  lemma ChainShape(c: Node, op: Node, rest: seq<Node>)
    requires PipelineShape(rest) && c.IsCommand() && !op.IsCommand()
    requires c.Chdir? ==> op == And
    requires c.Command? ==> c.argv != [] && (c.stdout == ToPipe <==> op == Pipe)
    ensures PipelineShape([c, op] + rest)
  {
    var ns := [c, op] + rest;
    assert forall i :: 2 <= i < |ns| ==> ns[i] == rest[i - 2];
    assert ns[|ns| - 1] == rest[|rest| - 1];
  }

  function RunPipeline(ns: seq<Node>, exit: nat -> int): Outcome
    requires PipelineShape(ns)
  {
    RunFrom(ns, 0, INIT, exit)
  }

  // ---------- Files are closed exactly once ----------

  /** Number of times file `id` is opened in `log`. */
  function TimesOpened(log: seq<Event>, id: nat): nat {
    if log == [] then 0
    else TimesOpened(log[..|log| - 1], id) +
         (match log[|log| - 1] case OpenRead(k, _) => (if k == id then 1 else 0) case OpenWrite(k, _) => (if k == id then 1 else 0) case _ => 0)
  }

  function TimesClosed(log: seq<Event>, id: nat): nat {
    if log == [] then 0
    else TimesClosed(log[..|log| - 1], id) + (if log[|log| - 1] == Close(id) then 1 else 0)
  }

  function Listed(files: seq<Handle>, id: nat): nat {
    if files == [] then 0 else Listed(files[..|files| - 1], id) + (if files[|files| - 1] == File(id) then 1 else 0)
  }

  /** Files `0 .. fileCount` have been opened once each; those not yet closed are exactly the ones listed for closing. */
  ghost predicate Tidy(st: St) { forall id: nat :: TidyAt(st.log, st.files, st.fileCount, id) }

  predicate TidyAt(log: seq<Event>, files: seq<Handle>, fileCount: nat, id: nat) {
    && TimesOpened(log, id) == (if id < fileCount then 1 else 0)
    && TimesClosed(log, id) + Listed(files, id) == TimesOpened(log, id)
  }

  lemma AppendEvent(log: seq<Event>, e: Event, id: nat)
    ensures TimesOpened(log + [e], id) == TimesOpened(log, id) +
              (match e case OpenRead(k, _) => (if k == id then 1 else 0) case OpenWrite(k, _) => (if k == id then 1 else 0) case _ => 0)
    ensures TimesClosed(log + [e], id) == TimesClosed(log, id) + (if e == Close(id) then 1 else 0)
  {
    assert (log + [e])[..|log|] == log;
  }

  lemma AppendFile(files: seq<Handle>, h: Handle, id: nat)
    ensures Listed(files + [h], id) == Listed(files, id) + (if h == File(id) then 1 else 0)
  {
    assert (files + [h])[..|files|] == files;
  }

  lemma OpenInTidy(st: St, name: string)
    requires Tidy(st)
    ensures Tidy(OpenIn(st, name))
  {
    var st' := OpenIn(st, name);
    forall id: nat ensures TidyAt(st'.log, st'.files, st'.fileCount, id) {
      assert TidyAt(st.log, st.files, st.fileCount, id);
      AppendEvent(st.log, OpenRead(st.fileCount, name), id);
      AppendFile(st.files, File(st.fileCount), id);
    }
  }

  lemma OpenOutTidy(st: St, name: string)
    requires Tidy(st)
    ensures Tidy(OpenOut(st, name))
  {
    var st' := OpenOut(st, name);
    forall id: nat ensures TidyAt(st'.log, st'.files, st'.fileCount, id) {
      assert TidyAt(st.log, st.files, st.fileCount, id);
      AppendEvent(st.log, OpenWrite(st.fileCount, name), id);
      AppendFile(st.files, File(st.fileCount), id);
      AppendFile(st.files, DevNull, id);
    }
  }

  lemma StartTidy(st: St, c: Node, pos: nat)
    requires c.Command? && (st.piping ==> st.piped != []) && Tidy(st)
    ensures Tidy(Start(st, c, pos))
  {
    if !st.piping && c.stdin.Some? { OpenInTidy(st, c.stdin.value); }
    var st1 := AddIn(st, c);
    if c.stdout.ToFile? { OpenOutTidy(st1, c.stdout.name); }
    var st2 := AddOut(st1, c);
    if c.stderr.ToErrFile? { OpenOutTidy(st2, c.stderr.name); }
    var st3 := AddErr(st2, c);
    var e := Start(st, c, pos).log[|st3.log|];
    LaunchTidy(st3, Start(st, c, pos), e);
  }

  lemma LaunchTidy(st: St, st': St, e: Event)
    requires Tidy(st) && e.Launch? && st'.log == st.log + [e] && st'.files == st.files && st'.fileCount == st.fileCount
    ensures Tidy(st')
  {
    forall id: nat ensures TidyAt(st'.log, st'.files, st'.fileCount, id) {
      assert TidyAt(st.log, st.files, st.fileCount, id);
      AppendEvent(st.log, e, id);
    }
  }

  lemma {:induction false} WaitsCount(log: seq<Event>, procs: seq<nat>, id: nat)
    ensures TimesOpened(log + Waits(procs), id) == TimesOpened(log, id)
    ensures TimesClosed(log + Waits(procs), id) == TimesClosed(log, id)
    decreases |procs|
  {
    if procs == [] {
      assert log + Waits(procs) == log;
    } else {
      var last := |procs| - 1;
      WaitsCount(log, procs[..last], id);
      assert log + Waits(procs) == (log + Waits(procs[..last])) + [Wait(procs[last])];
      AppendEvent(log + Waits(procs[..last]), Wait(procs[last]), id);
    }
  }

  lemma {:induction false} ClosesCount(log: seq<Event>, files: seq<Handle>, id: nat)
    ensures TimesOpened(log + Closes(files), id) == TimesOpened(log, id)
    ensures TimesClosed(log + Closes(files), id) == TimesClosed(log, id) + Listed(files, id)
    decreases |files|
  {
    if files == [] {
      assert log + Closes(files) == log;
    } else {
      ListedFront(files, id);
      var first := if files[0] == DevNull then [] else [Close(files[0].id)];
      CloseOne(log, files[0], id);
      assert Closes(files) == first + Closes(files[1..]);
      Associate(log, first, Closes(files[1..]));
      ClosesCount(log + first, files[1..], id);
    }
  }

  lemma CloseOne(log: seq<Event>, h: Handle, id: nat)
    ensures var log' := log + (if h == DevNull then [] else [Close(h.id)]);
            TimesOpened(log', id) == TimesOpened(log, id) &&
            TimesClosed(log', id) == TimesClosed(log, id) + (if h == File(id) then 1 else 0)
  {
    if h == DevNull { assert log + [] == log; } else { AppendEvent(log, Close(h.id), id); }
  }

  lemma {:induction false} ListedFront(files: seq<Handle>, id: nat)
    requires files != []
    ensures Listed(files, id) == (if files[0] == File(id) then 1 else 0) + Listed(files[1..], id)
  {
    if |files| > 1 {
      ListedFront(files[..|files| - 1], id);
      assert files[..|files| - 1][1..] == files[1..][..|files| - 2];
    }
  }

  lemma FinishedTidy(st: St)
    requires Tidy(st)
    ensures Tidy(Finished(st))
  {
    var st' := Finished(st);
    forall id: nat ensures TidyAt(st'.log, st'.files, st'.fileCount, id) {
      assert TidyAt(st.log, st.files, st.fileCount, id);
      WaitsCount(st.log, st.piped, id);
      ClosesCount(st.log + Waits(st.piped), st.files, id);
    }
  }

  lemma {:induction false} RunFromTidy(ns: seq<Node>, pos: nat, st: St, exit: nat -> int)
    requires PipelineShape(ns) && (st.piping ==> st.piped != []) && Tidy(st)
    ensures Tidy(RunFrom(ns, pos, st, exit).st)
    ensures RunFrom(ns, pos, st, exit).Returned? ==> RunFrom(ns, pos, st, exit).st.files == []
    decreases |ns|
  {
    if ns[0].Chdir? {
      if |ns| > 1 && ns[0].dir.Some? {
        TailShape(ns);
        RunFromTidy(ns[2..], pos + 2, st.(cwd := Join(st.cwd, ns[0].dir.value)), exit);
      }
    } else {
      StartTidy(st, ns[0], pos);
      var started := Start(st, ns[0], pos);
      FinishedTidy(started);
      if |ns| > 1 {
        TailShape(ns);
        if ns[1] == Pipe { RunFromTidy(ns[2..], pos + 2, started.(piping := true), exit); }
        else { RunFromTidy(ns[2..], pos + 2, Finished(started), exit); }
      }
    }
  }

  /** However `run` returns, each redirection file it opened was opened once and has been closed once;
      the shared null device has no number and is never closed. */
  lemma RunClosesFiles(ns: seq<Node>, exit: nat -> int)
    requires PipelineShape(ns) && RunPipeline(ns, exit).Returned?
    ensures var st := RunPipeline(ns, exit).st;
            forall id: nat :: TimesOpened(st.log, id) == TimesClosed(st.log, id) == (if id < st.fileCount then 1 else 0)
  {
    RunFromTidy(ns, 0, INIT, exit);
    var st := RunPipeline(ns, exit).st;
    forall id: nat ensures TimesOpened(st.log, id) == TimesClosed(st.log, id) == (if id < st.fileCount then 1 else 0) {
      assert TidyAt(st.log, st.files, st.fileCount, id);
    }
  }
}
