/** In which order `Pipeline.run` awaits its processes and closes its files. */
module ShellOrder {
  import opened Text
  import opened ShellSyntax
  import opened ShellRun
  import opened ShellLaunches

  ghost predicate AwaitedBetween(log: seq<Event>, m: int, k: int) {
    0 <= m < |log| && log[m].Launch? && exists w :: m < w < k <= |log| && log[w] == Wait(log[m].proc)
  }

  /** A file is closed only when every process launched before has been awaited. */
  ghost predicate ClosesLate(log: seq<Event>) {
    forall m, k :: 0 <= m < k < |log| && log[m].Launch? && log[k].Close? ==> AwaitedBetween(log, m, k)
  }

  /** Processes are awaited in the order of their commands. */
  ghost predicate WaitsRise(log: seq<Event>) {
    forall i, j :: 0 <= i < j < |log| && log[i].Wait? && log[j].Wait? ==> log[i].proc < log[j].proc
  }

  ghost predicate Rising(procs: seq<nat>, bound: nat) {
    && (forall i, j :: 0 <= i < j < |procs| ==> procs[i] < procs[j])
    && (forall i :: 0 <= i < |procs| ==> procs[i] < bound)
  }

  /** Before position `bound` is started: every launched process has been awaited or belongs to the current group. */
  ghost predicate InOrder(log: seq<Event>, piped: seq<nat>, bound: nat) {
    && ClosesLate(log) && WaitsRise(log) && Rising(piped, bound)
    && (forall m :: 0 <= m < |log| && log[m].Launch? ==> log[m].proc in piped || AwaitedBetween(log, m, |log|))
    && (forall i :: 0 <= i < |log| && log[i].Wait? ==> log[i].proc < bound && forall p :: p in piped ==> log[i].proc < p)
  }

  lemma Extended(log: seq<Event>, more: seq<Event>)
    ensures forall m, k :: k <= |log| && AwaitedBetween(log, m, k) ==> AwaitedBetween(log + more, m, k)
    ensures forall m, k, k' :: k <= k' <= |log + more| && AwaitedBetween(log + more, m, k) ==> AwaitedBetween(log + more, m, k')
  {
    forall m, k | k <= |log| && AwaitedBetween(log, m, k) ensures AwaitedBetween(log + more, m, k) {
      var w :| m < w < k && log[w] == Wait(log[m].proc);
      assert (log + more)[w] == log[w] && (log + more)[m] == log[m];
    }
  }

  lemma StartOrdered(st: St, c: Node, pos: nat)
    requires c.Command? && (st.piping ==> st.piped != []) && InOrder(st.log, st.piped, pos)
    ensures InOrder(Start(st, c, pos).log, Start(st, c, pos).piped, pos + 1)
  {
    var opens, e := StartLaunches(st, c, pos);
    StartKeeps(st, c, pos);
    hide Start, StdoutRight, StderrRight, ReadsFrom;
    var more := opens + [e];
    assert st.log + opens + [e] == st.log + more;
    LaunchOrdered(st.log, more, e, st.piped, pos);
  }

  lemma LaunchOrdered(log: seq<Event>, more: seq<Event>, e: Event, piped: seq<nat>, pos: nat)
    requires InOrder(log, piped, pos) && e.Launch? && e.proc == pos
    requires forall x :: x in more ==> x == e || x.OpenRead? || x.OpenWrite?
    ensures InOrder(log + more, piped + [pos], pos + 1)
  {
    var log' := log + more;
    Extended(log, more);
    assert forall i :: |log| <= i < |log'| ==> log'[i] in more;
    forall m, k | 0 <= m < k < |log'| && log'[m].Launch? && log'[k].Close? ensures AwaitedBetween(log', m, k) {
      assert AwaitedBetween(log, m, k);
    }
    forall m | 0 <= m < |log'| && log'[m].Launch? ensures log'[m].proc in piped + [pos] || AwaitedBetween(log', m, |log'|) {
      if m < |log| {
        assert log[m].proc in piped || AwaitedBetween(log, m, |log|);
        if AwaitedBetween(log, m, |log|) { assert AwaitedBetween(log', m, |log|); }
      }
    }
  }

  lemma WaitsOrdered(log: seq<Event>, piped: seq<nat>, bound: nat)
    requires InOrder(log, piped, bound)
    ensures InOrder(log + Waits(piped), [], bound)
  {
    var more := Waits(piped);
    var log' := log + more;
    Extended(log, more);
    assert forall i :: |log| <= i < |log'| ==> log'[i] == Wait(piped[i - |log|]);
    forall m, k | 0 <= m < k < |log'| && log'[m].Launch? && log'[k].Close? ensures AwaitedBetween(log', m, k) {
      assert AwaitedBetween(log, m, k);
    }
    forall i, j | 0 <= i < j < |log'| && log'[i].Wait? && log'[j].Wait? ensures log'[i].proc < log'[j].proc {
      if |log| <= j {
        assert piped[j - |log|] in piped;
        assert i < |log| ==> log[i].proc < piped[j - |log|];
      }
    }
    forall m | 0 <= m < |log'| && log'[m].Launch? ensures AwaitedBetween(log', m, |log'|) {
      assert log'[m] == log[m];
      if log[m].proc in piped {
        var i :| 0 <= i < |piped| && piped[i] == log[m].proc;
        assert log'[|log| + i] == Wait(log[m].proc);
      } else {
        assert AwaitedBetween(log', m, |log|);
      }
    }
  }

  lemma ClosesOrdered(log: seq<Event>, more: seq<Event>, bound: nat)
    requires InOrder(log, [], bound) && forall e :: e in more ==> e.Close?
    ensures InOrder(log + more, [], bound)
  {
    var log' := log + more;
    Extended(log, more);
    assert forall i :: |log| <= i < |log'| ==> log'[i] in more;
    forall m, k | 0 <= m < k < |log'| && log'[m].Launch? && log'[k].Close? ensures AwaitedBetween(log', m, k) {
      if k < |log| { assert AwaitedBetween(log, m, k); } else { assert AwaitedBetween(log, m, |log|); }
    }
    forall m | 0 <= m < |log'| && log'[m].Launch? ensures AwaitedBetween(log', m, |log'|) {
      assert AwaitedBetween(log, m, |log|);
    }
  }

  lemma FinishedOrdered(st: St, bound: nat)
    requires InOrder(st.log, st.piped, bound)
    ensures InOrder(Finished(st).log, [], bound)
  {
    WaitsOrdered(st.log, st.piped, bound);
    ClosesOnly(st.files);
    ClosesOrdered(st.log + Waits(st.piped), Closes(st.files), bound);
  }

  lemma Later(log: seq<Event>, piped: seq<nat>, bound: nat, bound': nat)
    requires InOrder(log, piped, bound) && bound <= bound'
    ensures InOrder(log, piped, bound')
  {
  }

  lemma {:induction false} RunFromOrdered(ns: seq<Node>, pos: nat, st: St, exit: nat -> int)
    requires PipelineShape(ns) && (st.piping ==> st.piped != []) && InOrder(st.log, st.piped, pos)
    ensures var log := RunFrom(ns, pos, st, exit).st.log; ClosesLate(log) && WaitsRise(log)
    decreases |ns|
  {
    hide Start, Finished, GroupStatus, InOrder, ClosesLate, WaitsRise;
    Parts(st.log, st.piped, pos);
    if |ns| > 1 { TailShape(ns); }
    if ns[0].Chdir? {
      if |ns| > 1 && ns[0].dir.Some? {
        Later(st.log, st.piped, pos, pos + 2);
        RunFromOrdered(ns[2..], pos + 2, st.(cwd := Join(st.cwd, ns[0].dir.value)), exit);
      }
    } else {
      StartOrdered(st, ns[0], pos);
      var started := Start(st, ns[0], pos);
      FinishedOrdered(started, pos + 1);
      Parts(Finished(started).log, [], pos + 1);
      FinishedIs(started);
      if |ns| > 1 {
        Later(started.log, started.piped, pos + 1, pos + 2);
        Later(Finished(started).log, [], pos + 1, pos + 2);
        if ns[1] == Pipe { RunFromOrdered(ns[2..], pos + 2, started.(piping := true), exit); }
        else { RunFromOrdered(ns[2..], pos + 2, Finished(started), exit); }
      }
    }
  }

  lemma Parts(log: seq<Event>, piped: seq<nat>, bound: nat)
    requires InOrder(log, piped, bound)
    ensures ClosesLate(log) && WaitsRise(log)
  {
  }

  lemma FinishedIs(st: St)
    ensures Finished(st).piped == [] && !Finished(st).piping
  {
  }

  /** Throughout a run, processes are awaited in the order of their commands, and no redirection file is closed before
      every process launched by then has been awaited. */
  lemma AwaitsThenCloses(ns: seq<Node>, exit: nat -> int)
    requires PipelineShape(ns)
    ensures var log := RunPipeline(ns, exit).st.log; ClosesLate(log) && WaitsRise(log)
  {
    RunFromOrdered(ns, 0, INIT, exit);
  }
}
