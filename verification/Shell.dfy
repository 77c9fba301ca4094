/** The `Pipeline` object of shellcmd.py: `parse` fills its fields from a token list, `run` interprets them. */
module Shell {
  import opened Text
  import opened ShellSyntax
  import opened ShellRun

  class Pipeline {
    var currentCommand: Option<Node>   // current_command
    var pipeline: seq<Node>

    constructor ()
      ensures currentCommand == None && pipeline == []
    {
      currentCommand, pipeline := None, [];
    }

    function Progress(mode: Mode, env: map<string, string>): Parsing
      reads this
    {
      Parsing(mode, currentCommand, pipeline, env)
    }

    /** `_commit_command`; its assertion is the caller's to check. */
    method CommitCommand()
      requires currentCommand.Some?
      modifies this
      ensures currentCommand == None && pipeline == old(pipeline) + [old(currentCommand).value]
    {
      pipeline := pipeline + [currentCommand.value];
      currentCommand := None;
    }

    method CommitOperator(op: Node)
      requires currentCommand.Some?
      modifies this
      ensures currentCommand == None && pipeline == old(pipeline) + [old(currentCommand).value, op]
    {
      CommitCommand();
      pipeline := pipeline + [op];
    }

    /** False when an assertion of the original fails. */
    method Parse(command: seq<string>) returns (ok: bool)
      modifies this
      ensures ok <==> ShellSyntax.Parse(command).Some?
      ensures ok ==> ShellSyntax.Parse(command) == Some(pipeline) && PipelineShape(pipeline) && currentCommand == None
    {
      if ShellSyntax.Parse(command).Some? { ParseShape(command); }
      currentCommand, pipeline := None, [];
      var tokens, state := command, Begin;
      var envVars: map<string, string> := map[];
      while tokens != []
        invariant Coherent(Progress(state, envVars))
        invariant ParseFrom(Progress(state, envVars), tokens) == ShellSyntax.Parse(command)
        decreases |tokens|
      {
        ghost var next := Consume(Progress(state, envVars), tokens[0]);
        var token := tokens[0];
        tokens := tokens[1..];
        match state
        case Begin =>
          var m := EnvMatch(token);
          if m.Some? {
            envVars := envVars[m.value.0 := m.value.1];
          } else if token == "cd" {
            currentCommand := Some(Chdir(None));
            if envVars != map[] { return false; }
            state := InChdir;
          } else {
            currentCommand := Some(Command([token], None, Inherited, InheritedErr, None));
            if envVars != map[] {
              currentCommand := Some(currentCommand.value.(envVars := Some(envVars)));
              envVars := map[];
            }
            state := InCommand;
          }
        case InCommand =>
          var c := currentCommand.value;
          if token == ">" {
            state := ForStdout;
          } else if token == "2>" {
            state := ForStderr;
          } else if token == "2>&1" {
            if !c.stderr.InheritedErr? { return false; }
            currentCommand := Some(c.(stderr := ToStdout));
          } else if token == "<" {
            state := ForStdin;
          } else if token == "|" {
            if !c.stdout.Inherited? { return false; }
            currentCommand := Some(c.(stdout := ToPipe));
            CommitOperator(Pipe);
            state := Begin;
          } else if token == "&&" {
            CommitOperator(And);
            state := Begin;
          } else if token == "||" {
            CommitOperator(Or);
            state := Begin;
          } else {
            currentCommand := Some(c.(argv := c.argv + [token]));
          }
        case InChdir =>
          if token == "&&" {
            CommitOperator(And);
            state := Begin;
          } else {
            if currentCommand.value.dir.Some? { return false; }
            currentCommand := Some(Chdir(Some(token)));
          }
        case ForStdout =>
          if !currentCommand.value.stdout.Inherited? { return false; }
          currentCommand := Some(currentCommand.value.(stdout := ToFile(token)));
          state := InCommand;
        case ForStderr =>
          if !currentCommand.value.stderr.InheritedErr? { return false; }
          currentCommand := Some(currentCommand.value.(stderr := ToErrFile(token)));
          state := InCommand;
        case ForStdin =>
          if currentCommand.value.stdin.Some? { return false; }
          currentCommand := Some(currentCommand.value.(stdin := Some(token)));
          state := InCommand;
        assert next == Some(Progress(state, envVars));
      }
      if currentCommand.None? { return false; }
      CommitCommand();
      return true;
    }

    /** `_exec_piped_commands`: awaits every process in order, then picks the status. */
    method ExecPipedCommands(commands: seq<nat>, exit: nat -> int) returns (retval: int, events: seq<Event>)
      requires commands != []
      ensures retval == GroupStatus(commands, exit) && events == Waits(commands)
    {
      var retvals: seq<int> := [];
      events := [];
      for i := 0 to |commands|
        invariant events == Waits(commands[..i])
        invariant |retvals| == i && forall k :: 0 <= k < i ==> retvals[k] == exit(commands[k])
      {
        retvals := retvals + [exit(commands[i])];
        events := events + [Wait(commands[i])];
        assert Waits(commands[..i + 1]) == Waits(commands[..i]) + [Wait(commands[i])];
      }
      assert commands[..|commands|] == commands;
      retval := 0;
      for i := 0 to |retvals|
        invariant retval == 0 && forall k :: 0 <= k < i ==> retvals[k] == 0
      {
        if retvals[i] != 0 {
          retval := retvals[|retvals| - 1];
          break;
        }
      }
    }

    /** Closes every file but the shared null device. */
    method CloseFiles(files: seq<Handle>) returns (events: seq<Event>)
      ensures events == Closes(files)
    {
      events := [];
      for i := 0 to |files|
        invariant events + Closes(files[i..]) == Closes(files)
      {
        ghost var before, rest := events, Closes(files[i + 1..]);
        assert files[i..][1..] == files[i + 1..];
        if files[i] != DevNull {
          events := events + [Close(files[i].id)];
          assert before + ([Close(files[i].id)] + rest) == events + rest;
        } else {
          assert [] + rest == rest;
        }
      }
    }

    /** Opens the redirections of one command and launches it; returns the state after the launch. */
    method Spawn(st: St, cmd: Node, pos: nat) returns (st': St)
      requires cmd.Command? && (st.piping ==> st.piped != [])
      ensures st' == Start(st, cmd, pos)
    {
      var stdin, stdout, stderr, now := Default, Default, Default, st;
      if st.piping {
        stdin := FromPipe(st.piped[|st.piped| - 1]);
      } else if cmd.stdin.Some? {
        stdin := At(File(now.fileCount));
        now := now.(log := now.log + [OpenRead(now.fileCount, cmd.stdin.value)], fileCount := now.fileCount + 1);
        now := now.(files := now.files + [stdin.handle]);
      }
      ghost var st1 := now;
      assert st1 == AddIn(st, cmd) && stdin == InStream(st, st1, cmd);
      match cmd.stdout {
        case Inherited =>
        case ToPipe => stdout := IntoPipe;
        case ToFile(name) =>
          var handle;
          handle, now := OpenOutFile(name, now);
          now := now.(files := now.files + [handle]);
          stdout := At(handle);
      }
      ghost var st2 := now;
      assert st2 == AddOut(st1, cmd) && stdout == OutStream(st1, st2, cmd);
      match cmd.stderr {
        case InheritedErr =>
        case ToStdout => stderr := Merged;
        case ToErrFile(name) =>
          var handle;
          handle, now := OpenOutFile(name, now);
          now := now.(files := now.files + [handle]);
          stderr := At(handle);
      }
      assert now == AddErr(st2, cmd) && stderr == ErrStream(st2, now, cmd);
      hide AddIn, AddOut, AddErr, InStream, OutStream, ErrStream;
      var procCwd := if st.cwd == "." then None else Some(st.cwd);
      st' := now.(log := now.log + [Launch(pos, cmd.argv, stdin, stdout, stderr, cmd.envVars, procCwd)], piped := now.piped + [pos]);
    }

    /** `_open_out_file`. */
    method OpenOutFile(name: string, st: St) returns (handle: Handle, st': St)
      ensures st'.(files := st.files + [handle]) == OpenOut(st, name) && st'.files == st.files
    {
      if name == "NUL:" || name == "/dev/null" {
        return DevNull, st;
      }
      return File(st.fileCount), st.(log := st.log + [OpenWrite(st.fileCount, name)], fileCount := st.fileCount + 1);
    }

    /** `run`, without its messages. `exit(i)` is the status of the command at position `i` of the pipeline. */
    method Run(exit: nat -> int) returns (outcome: Outcome)
      requires PipelineShape(pipeline)
      ensures outcome == RunPipeline(pipeline, exit)
    {
      var nodes, pos, st := pipeline, 0, INIT;
      while nodes != []
        invariant PipelineShape(nodes) && (st.piping ==> st.piped != [])
        invariant RunFrom(nodes, pos, st, exit) == RunPipeline(pipeline, exit)
        decreases |nodes|
      {
        var node := nodes[0];
        if |nodes| > 1 { TailShape(nodes); }
        if node.Chdir? {
          if |nodes| == 1 { return Raised(st); }               // pop from an empty list
          if node.dir.None? { return Raised(st); }             // os.path.join refuses None
          st := st.(cwd := Join(st.cwd, node.dir.value));
          nodes, pos := nodes[2..], pos + 2;
          continue;
        }
        var launched := Spawn(st, node, pos);
        if |nodes| == 1 {
          var retval, waits := ExecPipedCommands(launched.piped, exit);
          var closes := CloseFiles(launched.files);
          return Returned(retval, St([], [], false, launched.cwd, launched.log + waits + closes, launched.fileCount));
        }
        var nextNode := nodes[1];
        if nextNode == Pipe {
          st := launched.(piping := true);
        } else {
          var thisRetval, waits := ExecPipedCommands(launched.piped, exit);
          var closes := CloseFiles(launched.files);
          st := St([], [], false, launched.cwd, launched.log + waits + closes, launched.fileCount);
          if nextNode == Or && thisRetval == 0 { return Returned(thisRetval, st); }
          if nextNode == And && thisRetval != 0 { return Returned(thisRetval, st); }
        }
        nodes, pos := nodes[2..], pos + 2;
      }
      assert false;
    }
  }
}
