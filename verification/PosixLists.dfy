/** Pipelines and and-or lists as sections 2.9.2 and 2.9.3 of the POSIX Shell Command Language read them, and exactly
    when `Pipeline.run` agrees. `cd dir` is a command of its own here: it succeeds, its "&&" is an operator like any
    other, and behind a pipe it ends that pipeline without moving the shell. */
module PosixLists {
  import opened Text
  import opened ShellSyntax
  import opened ShellRun

  // ---------- The standard's reading ----------

  ghost predicate CdsNamed(ns: seq<Node>) { forall n :: n in ns && n.Chdir? ==> n.dir.Some? }

  /** A command's own redirection of its input comes after the pipe's, and so replaces it (section 2.9.2). */
  function PosixStart(st: St, c: Node, pos: nat): (r: St)
    requires c.Command? && (st.piping ==> st.piped != [])
    ensures r.piped == st.piped + [pos]
  {
    if st.piping && c.stdin.Some? then Start(st.(piping := false), c, pos).(piping := true) else Start(st, c, pos)
  }

  /** One element of a pipeline that is being run: its status and the state after it. */
  function PosixElement(node: Node, pos: nat, st: St, exit: nat -> int): (int, St)
    requires node.IsCommand() && (node.Chdir? ==> node.dir.Some?) && (st.piping ==> st.piped != [])
  {
    if node.Command? then (exit(pos), PosixStart(st, node, pos))
    else if st.piping then (0, st)
    else (0, st.(cwd := Join(st.cwd, node.dir.value)))
  }

  /** From the element at `pos` on, left to right. `status` is what the list has come to so far, and `go` says whether
      the pipeline this element belongs to is run: "&&" and "||" decide that with the status alone, whatever came
      before (equal precedence, left association). A pipeline that was run ends by awaiting its commands. */
  ghost function PosixFrom(ns: seq<Node>, pos: nat, go: bool, status: int, st: St, exit: nat -> int): (int, St)
    requires PipelineShape(ns) && CdsNamed(ns) && (st.piping ==> st.piped != [])
    decreases |ns|
  {
    assert ns[0] in ns;
    var (status', st') := if go then PosixElement(ns[0], pos, st, exit) else (status, st);
    if |ns| == 1 then (status', if go then Finished(st') else st')
    else
      Rest(ns);
      if ns[1] == Pipe then PosixFrom(ns[2..], pos + 2, go, status', if go then st'.(piping := true) else st', exit)
      else PosixFrom(ns[2..], pos + 2, Proceeds(ns[1], status'), status', if go then Finished(st') else st', exit)
  }

  ghost function Posix(ns: seq<Node>, exit: nat -> int): (int, St)
    requires PipelineShape(ns) && CdsNamed(ns)
  {
    PosixFrom(ns, 0, true, 0, INIT, exit)
  }

  lemma Rest(ns: seq<Node>)
    requires PipelineShape(ns) && CdsNamed(ns) && |ns| > 1
    ensures |ns| > 2 && PipelineShape(ns[2..]) && CdsNamed(ns[2..]) && ns[|ns| - 1] == ns[2..][|ns| - 3]
    ensures ns[0].IsCommand() && ns[2].IsCommand() && (ns[1] == Pipe || ns[1] == And || ns[1] == Or)
    ensures ns[0].Chdir? ==> ns[1] == And
  {
    TailShape(ns);
  }

  // ---------- When the two readings agree ----------

  /** An operator that joins what is behind it to something other than a `cd`. */
  predicate Connective(ns: seq<Node>, p: int) { 0 < p < |ns| && ns[p] in {And, Or} && !ns[p - 1].Chdir? }

  /** No `cd` comes last or directly behind "|" or "||", no command directly behind "|" redirects its input, and all
      connectives, the "&&" behind a `cd` aside, are the same. */
  ghost predicate ReadsAlike(ns: seq<Node>) {
    && ns != [] && ns[|ns| - 1].Command?
    && (forall p :: 0 < p < |ns| && ns[p].Chdir? ==> ns[p - 1] == And)
    && (forall p :: 0 < p < |ns| && ns[p].Command? && ns[p].stdin.Some? ==> ns[p - 1] != Pipe)
    && (forall p, q :: Connective(ns, p) && Connective(ns, q) ==> ns[p] == ns[q])
  }

  predicate Only(ns: seq<Node>, op: Node) {
    |ns| < 3 || ((ns[0].Chdir? || ns[1] == Pipe || ns[1] == op) && Only(ns[2..], op))
  }

  predicate Fits(ns: seq<Node>, p: int) {
    0 < p < |ns| ==> (ns[p].Chdir? ==> ns[p - 1] == And) && (ns[p].Command? && ns[p].stdin.Some? ==> ns[p - 1] != Pipe)
  }

  predicate Placed(ns: seq<Node>) { |ns| < 3 || (Fits(ns, 2) && Placed(ns[2..])) }

  lemma {:induction false} OnlyMeans(ns: seq<Node>, op: Node)
    requires PipelineShape(ns) && CdsNamed(ns)
    ensures Only(ns, op) <==> forall p :: Connective(ns, p) ==> ns[p] == op
    decreases |ns|
  {
    if |ns| > 1 {
      Rest(ns);
      var rest := ns[2..];
      OnlyMeans(rest, op);
      hide PipelineShape, CdsNamed;
      assert !Connective(ns, 2) && (Connective(ns, 1) <==> !ns[0].Chdir? && ns[1] != Pipe);
      if Only(ns, op) {
        forall p | Connective(ns, p) ensures ns[p] == op {
          if p > 2 { assert Connective(rest, p - 2); }
        }
      }
      if forall p :: Connective(ns, p) ==> ns[p] == op {
        forall p | Connective(rest, p) ensures rest[p] == op { assert Connective(ns, p + 2); }
        assert Connective(ns, 1) ==> ns[1] == op;
      }
    }
  }

  lemma {:induction false} PlacedMeans(ns: seq<Node>)
    requires PipelineShape(ns) && CdsNamed(ns)
    ensures Placed(ns) <==> forall p :: Fits(ns, p)
    decreases |ns|
  {
    if |ns| > 1 {
      Rest(ns);
      var rest := ns[2..];
      PlacedMeans(rest);
      hide PipelineShape, CdsNamed;
      assert Fits(ns, 1);
      if Placed(ns) {
        forall p ensures Fits(ns, p) { if 2 < p { assert Fits(rest, p - 2); } }
      }
      if forall p :: Fits(ns, p) {
        forall p ensures Fits(rest, p) { assert Fits(ns, p + 2); }
        assert Fits(ns, 2);
      }
    }
  }

  /** The same condition, one element at a time. */
  lemma ReadsAlikeMeans(ns: seq<Node>)
    requires PipelineShape(ns) && CdsNamed(ns)
    ensures ReadsAlike(ns) <==> ns[|ns| - 1].Command? && Placed(ns) && (Only(ns, And) || Only(ns, Or))
  {
    PlacedMeans(ns);
    OnlyMeans(ns, And);
    OnlyMeans(ns, Or);
    hide Placed, Only, PipelineShape, CdsNamed;
    if Placed(ns) {
      forall p | 0 < p < |ns| ensures (ns[p].Chdir? ==> ns[p - 1] == And) && (ns[p].Command? && ns[p].stdin.Some? ==> ns[p - 1] != Pipe) {
        assert Fits(ns, p);
      }
    }
    if ReadsAlike(ns) {
      forall p ensures Fits(ns, p) {}
    }
    if !Only(ns, And) && !Only(ns, Or) {
      var p :| Connective(ns, p) && ns[p] != And;
      var q :| Connective(ns, q) && ns[q] != Or;
      assert ns[p] != ns[q];
    }
  }

  /** Between pipelines nothing is open and nothing is running. */
  predicate Settled(st: St) { if st.piping then st.piped != [] else st.piped == [] && st.files == [] }

  lemma FinishedSettled(st: St)
    ensures Settled(Finished(st)) && !Finished(st).piping && Finished(st).cwd == st.cwd
    ensures Settled(st) && !st.piping ==> Finished(st) == st
  {
    assert Waits([]) == [] && Closes([]) == [];
    assert st.log + [] + [] == st.log;
  }

  /** With the only connective not letting anything proceed, the standard runs nothing more either. */
  lemma {:induction false} SkipAll(ns: seq<Node>, op: Node, pos: nat, status: int, st: St, exit: nat -> int)
    requires PipelineShape(ns) && CdsNamed(ns) && !st.piping && op in {And, Or} && !Proceeds(op, status)
    requires Placed(ns) && Only(ns, op) && (op == Or ==> !ns[0].Chdir?)
    ensures PosixFrom(ns, pos, false, status, st, exit) == (status, st)
    decreases |ns|
  {
    if |ns| > 1 {
      Rest(ns);
      assert Fits(ns, 2);
      SkipAll(ns[2..], op, pos + 2, status, st, exit);
    }
  }

  lemma {:induction false} Agree(ns: seq<Node>, op: Node, pos: nat, status: int, st: St, exit: nat -> int)
    requires PipelineShape(ns) && CdsNamed(ns) && ns[|ns| - 1].Command? && Settled(st) && op in {And, Or}
    requires Placed(ns) && Only(ns, op)
    requires st.piping ==> !ns[0].Chdir? && ns[0].stdin.None?
    ensures var (status', st') := PosixFrom(ns, pos, true, status, st, exit);
            RunFrom(ns, pos, st, exit) == Returned(status', st')
    decreases |ns|
  {
    hide Start, Finished, GroupStatus;
    assert ns[0] in ns;
    if |ns| > 1 {
      Rest(ns);
      assert Fits(ns, 2);
    }
    if ns[0].Chdir? {
      var moved := st.(cwd := Join(st.cwd, ns[0].dir.value));
      FinishedSettled(moved);
      Agree(ns[2..], op, pos + 2, 0, moved, exit);
    } else {
      var started := Start(st, ns[0], pos);
      GroupStatusIsLast(started.piped, exit);
      FinishedSettled(started);
      if |ns| > 1 {
        if ns[1] == Pipe {
          Agree(ns[2..], op, pos + 2, exit(pos), started.(piping := true), exit);
        } else if Proceeds(op, exit(pos)) {
          Agree(ns[2..], op, pos + 2, exit(pos), Finished(started), exit);
        } else {
          SkipAll(ns[2..], op, pos + 2, exit(pos), Finished(started), exit);
        }
      }
    }
  }

  // ---------- Where they differ ----------

  lemma StartLogs(st: St, c: Node, pos: nat)
    requires c.Command? && (st.piping ==> st.piped != [])
    ensures st.log < Start(st, c, pos).log
    ensures st.piping ==> !Start(st, c, pos).log[|st.log|].OpenRead?
    ensures !st.piping && c.stdin.Some? ==> Start(st, c, pos).log[|st.log|].OpenRead?
    ensures !Start(st, c, pos).log[|st.log|].Wait?
    ensures Start(st, c, pos).piping == st.piping && Start(st, c, pos).cwd == st.cwd
  {
  }

  lemma PosixStartLogs(st: St, c: Node, pos: nat)
    requires c.Command? && (st.piping ==> st.piped != [])
    ensures st.log < PosixStart(st, c, pos).log
    ensures st.piping && c.stdin.Some? ==> PosixStart(st, c, pos).log[|st.log|].OpenRead?
    ensures PosixStart(st, c, pos).piping == st.piping
  {
    StartLogs(st, c, pos);
    if st.piping { StartLogs(st.(piping := false), c, pos); }
  }

  lemma FinishedLogs(st: St)
    ensures st.log <= Finished(st).log
    ensures st.piped != [] ==> st.log < Finished(st).log && Finished(st).log[|st.log|].Wait?
  {
    assert Finished(st).log == st.log + (Waits(st.piped) + Closes(st.files));
  }

  /** Neither reading takes an event back. */
  lemma {:induction false} RunGrows(ns: seq<Node>, pos: nat, st: St, exit: nat -> int)
    requires PipelineShape(ns) && (st.piping ==> st.piped != [])
    ensures st.log <= RunFrom(ns, pos, st, exit).st.log
    decreases |ns|
  {
    hide Start, Finished, GroupStatus;
    if |ns| > 1 { TailShape(ns); }
    if ns[0].Chdir? {
      if |ns| > 1 && ns[0].dir.Some? { RunGrows(ns[2..], pos + 2, st.(cwd := Join(st.cwd, ns[0].dir.value)), exit); }
    } else {
      var started := Start(st, ns[0], pos);
      StartLogs(st, ns[0], pos);
      FinishedLogs(started);
      FinishedSettled(started);
      if |ns| > 1 {
        if ns[1] == Pipe { RunGrows(ns[2..], pos + 2, started.(piping := true), exit); }
        else { RunGrows(ns[2..], pos + 2, Finished(started), exit); }
      }
    }
  }

  lemma {:induction false} PosixGrows(ns: seq<Node>, pos: nat, go: bool, status: int, st: St, exit: nat -> int)
    requires PipelineShape(ns) && CdsNamed(ns) && (st.piping ==> st.piped != [])
    ensures st.log <= PosixFrom(ns, pos, go, status, st, exit).1.log
    decreases |ns|
  {
    hide PosixStart, Finished;
    assert ns[0] in ns;
    var (status', st') := if go then PosixElement(ns[0], pos, st, exit) else (status, st);
    if go && ns[0].Command? { PosixStartLogs(st, ns[0], pos); }
    FinishedLogs(st');
    FinishedSettled(st');
    if |ns| > 1 {
      Rest(ns);
      if ns[1] == Pipe { PosixGrows(ns[2..], pos + 2, go, status', if go then st'.(piping := true) else st', exit); }
      else { PosixGrows(ns[2..], pos + 2, Proceeds(ns[1], status'), status', if go then Finished(st') else st', exit); }
    }
  }

  /** Behind a pipe `run` starts the next command at once: it neither awaits anything nor opens an input first. */
  lemma {:induction false} RunPipesOn(ns: seq<Node>, pos: nat, st: St, exit: nat -> int)
    requires PipelineShape(ns) && CdsNamed(ns) && ns[|ns| - 1].Command? && st.piping && st.piped != []
    ensures st.log < RunFrom(ns, pos, st, exit).st.log
    ensures var e := RunFrom(ns, pos, st, exit).st.log[|st.log|]; !e.Wait? && !e.OpenRead?
    decreases |ns|
  {
    hide Start, Finished, GroupStatus;
    assert ns[0] in ns;
    if |ns| > 1 { Rest(ns); }
    if ns[0].Chdir? {
      RunPipesOn(ns[2..], pos + 2, st.(cwd := Join(st.cwd, ns[0].dir.value)), exit);
    } else {
      var started := Start(st, ns[0], pos);
      StartLogs(st, ns[0], pos);
      FinishedLogs(started);
      FinishedSettled(started);
      if |ns| > 1 {
        if ns[1] == Pipe { RunGrows(ns[2..], pos + 2, started.(piping := true), exit); }
        else { RunGrows(ns[2..], pos + 2, Finished(started), exit); }
      }
    }
  }

  /** The standard awaits a pipeline that a `cd` ends, and opens a redirected input. */
  lemma PosixPipesOn(ns: seq<Node>, pos: nat, status: int, st: St, exit: nat -> int)
    requires PipelineShape(ns) && CdsNamed(ns) && st.piping && st.piped != []
    requires ns[0].Chdir? || ns[0].stdin.Some?
    ensures st.log < PosixFrom(ns, pos, true, status, st, exit).1.log
    ensures var e := PosixFrom(ns, pos, true, status, st, exit).1.log[|st.log|]; e.Wait? || e.OpenRead?
  {
    hide PosixStart, Finished;
    assert ns[0] in ns;
    var (status', st') := PosixElement(ns[0], pos, st, exit);
    if ns[0].Command? { PosixStartLogs(st, ns[0], pos); }
    FinishedLogs(st');
    FinishedSettled(st');
    if |ns| > 1 {
      Rest(ns);
      if ns[1] == Pipe { PosixGrows(ns[2..], pos + 2, true, status', st'.(piping := true), exit); }
      else { PosixGrows(ns[2..], pos + 2, Proceeds(ns[1], status'), status', Finished(st'), exit); }
    }
  }

  /** A list that is being run, and ends in a command, launches something. */
  lemma {:induction false} PosixLaunches(ns: seq<Node>, pos: nat, status: int, st: St, exit: nat -> int)
    requires PipelineShape(ns) && CdsNamed(ns) && ns[|ns| - 1].Command? && Settled(st)
    ensures st.log < PosixFrom(ns, pos, true, status, st, exit).1.log
    decreases |ns|
  {
    hide PosixStart, Finished;
    assert ns[0] in ns;
    var (status', st') := PosixElement(ns[0], pos, st, exit);
    FinishedLogs(st');
    FinishedSettled(st');
    if |ns| > 1 { Rest(ns); }
    if ns[0].Chdir? {
      PosixLaunches(ns[2..], pos + 2, 0, Finished(st'), exit);
    } else {
      PosixStartLogs(st, ns[0], pos);
      if |ns| > 1 {
        if ns[1] == Pipe { PosixGrows(ns[2..], pos + 2, true, status', st'.(piping := true), exit); }
        else { PosixGrows(ns[2..], pos + 2, Proceeds(ns[1], status'), status', Finished(st'), exit); }
      }
    }
  }

  predicate HasCd(ns: seq<Node>) { exists i :: 0 <= i < |ns| && ns[i].Chdir? }

  /** Where every status is `c` and the list has come to `c`, something skipped comes to be run behind an operator
      that `c` satisfies, or, for `c == 0`, behind a `cd`. */
  lemma {:induction false} PosixResumes(ns: seq<Node>, pos: nat, c: int, st: St)
    requires PipelineShape(ns) && CdsNamed(ns) && ns[|ns| - 1].Command? && Settled(st) && !st.piping
    requires if c == 0 then !Only(ns, Or) || HasCd(ns) else !Only(ns, And)
    ensures st.log < PosixFrom(ns, pos, false, c, st, _ => c).1.log
    decreases |ns|
  {
    assert |ns| > 1;
    Rest(ns);
    var rest := ns[2..];
    if ns[1] != Pipe && Proceeds(ns[1], c) {
      PosixLaunches(rest, pos + 2, c, st, _ => c);
    } else {
      if c == 0 && Only(ns, Or) {
        var i :| 0 <= i < |ns| && ns[i].Chdir?;
        assert i >= 2 && rest[i - 2].Chdir?;
      }
      PosixResumes(rest, pos + 2, c, st);
    }
  }

  /** A `cd`, or a command that redirects its input, right behind a pipe. */
  lemma BehindPipe(ns: seq<Node>, pos: nat, status: int, st: St, exit: nat -> int)
    requires PipelineShape(ns) && CdsNamed(ns) && ns[|ns| - 1].Command? && Settled(st) && ns[0].Command?
    requires |ns| > 1 && ns[1] == Pipe && !Fits(ns, 2) && (st.piping ==> ns[0].stdin.None?)
    ensures var (status', st') := PosixFrom(ns, pos, true, status, st, exit);
            RunFrom(ns, pos, st, exit) != Returned(status', st')
  {
    hide Start, Finished, GroupStatus;
    Rest(ns);
    var piping := Start(st, ns[0], pos).(piping := true);
    RunPipesOn(ns[2..], pos + 2, piping, exit);
    PosixPipesOn(ns[2..], pos + 2, exit(pos), piping, exit);
  }

  /** With a single connective, statuses that satisfy it lead both readings to the pipe they take differently. */
  lemma {:induction false} PipeDiffers(ns: seq<Node>, op: Node, pos: nat, status: int, st: St, c: int)
    requires PipelineShape(ns) && CdsNamed(ns) && ns[|ns| - 1].Command? && Settled(st)
    requires st.piping ==> !ns[0].Chdir? && ns[0].stdin.None?
    requires op in {And, Or} && Proceeds(op, c) && Only(ns, op) && !Placed(ns) && (op == Or ==> !HasCd(ns))
    ensures var (status', st') := PosixFrom(ns, pos, true, status, st, _ => c);
            RunFrom(ns, pos, st, _ => c) != Returned(status', st')
    decreases |ns|
  {
    hide Start, Finished, GroupStatus;
    assert ns[0] in ns;
    Rest(ns);
    var rest := ns[2..];
    assert !HasCd(ns) ==> !ns[2].Chdir? && !HasCd(rest);
    if ns[0].Chdir? {
      var moved := st.(cwd := Join(st.cwd, ns[0].dir.value));
      FinishedSettled(moved);
      PipeDiffers(rest, op, pos + 2, 0, moved, c);
    } else if !Fits(ns, 2) {
      BehindPipe(ns, pos, status, st, _ => c);
    } else {
      var started := Start(st, ns[0], pos);
      GroupStatusIsLast(started.piped, _ => c);
      FinishedSettled(started);
      PipeDiffers(rest, op, pos + 2, c, if ns[1] == Pipe then started.(piping := true) else Finished(started), c);
    }
  }

  /** Some constant status tells the readings apart. */
  lemma {:induction false} Differs(ns: seq<Node>, pos: nat, status: int, st: St) returns (c: int)
    requires PipelineShape(ns) && CdsNamed(ns) && ns[|ns| - 1].Command? && Settled(st)
    requires st.piping ==> !ns[0].Chdir? && ns[0].stdin.None?
    requires !Placed(ns) || (!Only(ns, And) && !Only(ns, Or))
    ensures var (status', st') := PosixFrom(ns, pos, true, status, st, _ => c);
            RunFrom(ns, pos, st, _ => c) != Returned(status', st')
    decreases |ns|
  {
    if Only(ns, And) {
      c := 0;
      PipeDiffers(ns, And, pos, status, st, c);
    } else if Only(ns, Or) && !HasCd(ns) {
      c := 1;
      PipeDiffers(ns, Or, pos, status, st, c);
    } else {
      c := DiffersOn(ns, pos, status, st);
    }
  }

  lemma {:induction false} DiffersOn(ns: seq<Node>, pos: nat, status: int, st: St) returns (c: int)
    requires PipelineShape(ns) && CdsNamed(ns) && ns[|ns| - 1].Command? && Settled(st)
    requires st.piping ==> !ns[0].Chdir? && ns[0].stdin.None?
    requires !Placed(ns) || (!Only(ns, And) && !Only(ns, Or))
    requires !Only(ns, And) && (Only(ns, Or) ==> HasCd(ns))
    ensures var (status', st') := PosixFrom(ns, pos, true, status, st, _ => c);
            RunFrom(ns, pos, st, _ => c) != Returned(status', st')
    decreases |ns|, 0
  {
    hide Start, Finished, GroupStatus;
    assert ns[0] in ns;
    Rest(ns);
    var rest := ns[2..];
    if ns[0].Chdir? {
      var moved := st.(cwd := Join(st.cwd, ns[0].dir.value));
      FinishedSettled(moved);
      c := Differs(rest, pos + 2, 0, moved);
    } else if ns[1] == Pipe && !Fits(ns, 2) {
      c := 0;
      BehindPipe(ns, pos, status, st, _ => c);
    } else if ns[1] == Pipe {
      c := Differs(rest, pos + 2, 0, Start(st, ns[0], pos).(piping := true));
      GroupStatusIsLast(Start(st, ns[0], pos).piped, _ => c);
    } else {
      c := if ns[1] == And then 1 else 0;
      var started := Start(st, ns[0], pos);
      GroupStatusIsLast(started.piped, _ => c);
      FinishedSettled(started);
      if c == 0 && Only(rest, Or) {
        var i :| 0 <= i < |ns| && ns[i].Chdir?;
        assert i >= 2 && rest[i - 2].Chdir?;
      }
      PosixResumes(rest, pos + 2, c, Finished(started));
    }
  }

  // ---------- A `cd` at the end ----------

  /** Statuses that let every operator proceed. */
  function Onward(ns: seq<Node>): nat -> int { (p: nat) => if p + 1 < |ns| && ns[p + 1] == Or then 1 else 0 }

  lemma {:induction false} RunsToEnd(ns: seq<Node>, p: nat, st: St)
    requires p < |ns| && PipelineShape(ns[p..]) && (st.piping ==> st.piped != [])
    requires ns[|ns| - 1].Chdir?
    ensures RunFrom(ns[p..], p, st, Onward(ns)).Raised?
    decreases |ns| - p
  {
    hide Start, Finished, GroupStatus;
    var rest := ns[p..];
    assert rest[0] == ns[p];
    if |rest| > 1 {
      TailShape(rest);
      assert rest[1] == ns[p + 1] && rest[2..] == ns[p + 2..];
      if ns[p].Chdir? {
        if ns[p].dir.Some? { RunsToEnd(ns, p + 2, st.(cwd := Join(st.cwd, ns[p].dir.value))); }
      } else {
        var started := Start(st, ns[p], p);
        GroupStatusIsLast(started.piped, Onward(ns));
        FinishedSettled(started);
        RunsToEnd(ns, p + 2, if ns[p + 1] == Pipe then started.(piping := true) else Finished(started));
      }
    } else {
      assert ns[p] == ns[|ns| - 1];
    }
  }

  // ---------- The theorem ----------

  ghost predicate AgreesFor(ns: seq<Node>, exit: nat -> int)
    requires PipelineShape(ns) && CdsNamed(ns)
  {
    var (status, st) := Posix(ns, exit);
    RunPipeline(ns, exit) == Returned(status, st)
  }

  lemma SingleAgrees(ns: seq<Node>, exit: nat -> int)
    requires PipelineShape(ns) && CdsNamed(ns) && ReadsAlike(ns)
    ensures AgreesFor(ns, exit)
  {
    ReadsAlikeMeans(ns);
    Agree(ns, if Only(ns, And) then And else Or, 0, 0, INIT, exit);
  }

  lemma MixedDiffers(ns: seq<Node>) returns (exit: nat -> int)
    requires PipelineShape(ns) && CdsNamed(ns) && !ReadsAlike(ns)
    ensures !AgreesFor(ns, exit)
  {
    ReadsAlikeMeans(ns);
    if ns[|ns| - 1].Command? {
      var c := Differs(ns, 0, 0, INIT);
      exit := _ => c;
    } else {
      Ends(ns);
      assert ns[0..] == ns;
      RunsToEnd(ns, 0, INIT);
      exit := Onward(ns);
    }
  }

  lemma Ends(ns: seq<Node>)
    requires PipelineShape(ns)
    ensures ns[|ns| - 1].IsCommand()
  {
  }

  /** The program does with a pipeline what the standard says, whatever its commands return, iff they read it alike:
      same status, same launches with the same streams and directories, same waits, in the same order. */
  lemma AgreesWithPosix(ns: seq<Node>)
    requires PipelineShape(ns) && CdsNamed(ns)
    ensures ReadsAlike(ns) <==> forall exit: nat -> int :: AgreesFor(ns, exit)
  {
    hide ReadsAlike, AgreesFor, PipelineShape;
    if ReadsAlike(ns) {
      forall exit: nat -> int ensures AgreesFor(ns, exit) { SingleAgrees(ns, exit); }
    } else {
      var exit := MixedDiffers(ns);
    }
  }

  // ---------- Two lists with one "&&" or "||" between commands that are read differently ----------

  function Plain(name: string, out: Out): Node { Command([name], None, out, InheritedErr, None) }

  function CdThenB(): seq<Node> { [Chdir(Some("d")), And] + [Plain("b", Inherited)] }

  function CdOr(): seq<Node> { [Plain("a", Inherited), Or] + CdThenB() }

  function CdPipe(): seq<Node> { [Plain("a", ToPipe), Pipe] + CdThenB() }

  lemma CdThenBTails()
    ensures PipelineShape([Plain("b", Inherited)]) && CdsNamed([Plain("b", Inherited)])
    ensures PipelineShape(CdThenB()) && CdsNamed(CdThenB()) && CdThenB()[2..] == [Plain("b", Inherited)]
  {
    assert PipelineShape([Plain("b", Inherited)]);
    hide PipelineShape;
    ChainShape(Chdir(Some("d")), And, [Plain("b", Inherited)]);
  }

  lemma CdOrTails()
    ensures PipelineShape(CdOr()) && CdsNamed(CdOr()) && CdOr()[2..] == CdThenB()
  {
    CdThenBTails();
    hide PipelineShape;
    ChainShape(Plain("a", Inherited), Or, CdThenB());
  }

  lemma CdPipeTails()
    ensures PipelineShape(CdPipe()) && CdsNamed(CdPipe()) && CdPipe()[2..] == CdThenB()
  {
    CdThenBTails();
    hide PipelineShape;
    ChainShape(Plain("a", ToPipe), Pipe, CdThenB());
  }

  /** The process at `p` is launched, with standard input `stdin`. */
  ghost predicate Launches(log: seq<Event>, p: nat, stdin: Stream) {
    exists e :: e in log && e.Launch? && e.proc == p && e.stdin == stdin
  }

  /** The last command of a list reads the pipe if there is one. */
  lemma LastLaunch(st: St, pos: nat)
    requires st.piping ==> st.piped != []
    ensures Launches(Finished(Start(st, Plain("b", Inherited), pos)).log, pos, if st.piping then FromPipe(st.piped[|st.piped| - 1]) else Default)
  {
    var last := Start(st, Plain("b", Inherited), pos);
    FinishedLogs(last);
    var e := last.log[|last.log| - 1];
    assert last.log[|last.log| - 1] == Finished(last).log[|last.log| - 1];
    assert e in Finished(last).log && e.Launch? && e.proc == pos;
  }

  lemma OnlyA()
    ensures forall e :: e in Finished(Start(INIT, Plain("a", Inherited), 0)).log && e.Launch? ==> e.proc == 0
  {
    var started := Start(INIT, Plain("a", Inherited), 0);
    assert started.files == [] && started.piped == [0];
    assert forall e :: e in Waits([0]) ==> e.Wait?;
  }

  /** Behind `cd d &&`, the standard runs `b` where the list has come to 0. */
  lemma BIsRun(go: bool, status: int, st: St, exit: nat -> int)
    requires Settled(st) && (if go then st.piping else status == 0 && !st.piping)
    ensures PipelineShape(CdThenB()) && CdsNamed(CdThenB())
    ensures Launches(PosixFrom(CdThenB(), 2, go, status, st, exit).1.log, 4, Default)
  {
    CdThenBTails();
    var ns, after := CdThenB(), if go then Finished(st) else st;
    FinishedSettled(st);
    LastLaunch(after, 4);
    hide Start, Finished, PipelineShape, CdsNamed;
    assert PosixFrom(ns[2..], 4, true, 0, after, exit) == (exit(4), Finished(Start(after, ns[2], 4)));
    assert PosixFrom(ns, 2, go, status, st, exit) == PosixFrom(ns[2..], 4, true, 0, after, exit);
  }

  /** `a || cd d && b` with a successful `a`: the program stops, the standard runs `b`. */
  lemma CdBehindOr()
    ensures PipelineShape(CdOr()) && CdsNamed(CdOr()) && !ReadsAlike(CdOr())
    ensures forall e :: e in RunPipeline(CdOr(), _ => 0).st.log && e.Launch? ==> e.proc == 0
    ensures Launches(Posix(CdOr(), _ => 0).1.log, 4, Default)
  {
    var ns, exit: nat -> int := CdOr(), _ => 0;
    CdOrTails();
    OnlyA();
    assert ns[2].Chdir? && ns[1] == Or;
    hide Start, Finished, GroupStatus, PipelineShape, CdsNamed, Launches;
    var started := Start(INIT, ns[0], 0);
    GroupStatusIsLast(started.piped, exit);
    assert RunPipeline(ns, exit) == Returned(0, Finished(started));
    FinishedSettled(started);
    BIsRun(false, 0, Finished(started), exit);
  }

  /** `a | cd d && b`: the program feeds `b` from `a`, the standard runs it behind the pipeline. */
  lemma CdBehindPipe(exit: nat -> int)
    ensures PipelineShape(CdPipe()) && CdsNamed(CdPipe()) && !ReadsAlike(CdPipe()) && !AgreesFor(CdPipe(), exit)
    ensures Launches(RunPipeline(CdPipe(), exit).st.log, 4, FromPipe(0))
    ensures Launches(Posix(CdPipe(), exit).1.log, 4, Default)
  {
    var ns := CdPipe();
    CdThenBTails();
    CdPipeTails();
    assert ns[2].Chdir? && ns[1] == Pipe;
    assert !Fits(ns, 2);
    hide Start, Finished, GroupStatus, PipelineShape, CdsNamed, Launches;
    BehindPipe(ns, 0, 0, INIT, exit);
    var piping := Start(INIT, ns[0], 0).(piping := true);
    BIsRun(true, exit(0), piping, exit);
    var moved := piping.(cwd := Join(piping.cwd, "d"));
    var fed := Start(moved, ns[4], 4);
    LastLaunch(moved, 4);
    assert RunFrom(ns[2..][2..], 4, moved, exit) == Returned(GroupStatus(fed.piped, exit), Finished(fed));
    assert RunFrom(ns[2..], 2, piping, exit) == RunFrom(ns[2..][2..], 4, moved, exit);
  }
}
