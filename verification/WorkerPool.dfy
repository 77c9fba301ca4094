/** The worker pool of test.py as a state machine: a dispatching main thread, N workers, two FIFO queues,
    poison pills and an interrupt flag that a signal may raise at any moment. */
module WorkerPool {
  import opened Text

  /** A `Job`; a pill is a job created with `isBreak` set. `isSkip` never changes after dispatch. */
  datatype Job = Job(isBreak: bool, isSkip: bool, returncode: int)

  /** Where a worker stands inside `worker_thread.run`, and the job it holds. */
  datatype Worker =
    | Waiting                 // blocked in input_queue.get()
    | Got(id: nat)            // about to test job.is_break
    | Checked(id: nat)        // about to read thread_exit
    | Breaking(id: nat)       // saw the flag, about to set is_break
    | Deciding(id: nat)       // about to test job.is_skip
    | Running(id: nat)        // run_job_synchronously
    | Returning(id: nat)      // about to put the job on the output queue
    | Exited(id: nat)         // returned from run on seeing pill `id`

  /** Where the main thread stands: dispatching job `n`, sending pill `n`, collecting its `n`-th result, joining worker `n`. */
  datatype Main = Dispatch(n: nat) | Pill(n: nat) | Collect(n: nat) | Join(n: nat) | Finished

  /** Jobs are numbered `0 .. total` in dispatch order, pills `total .. total + |workers|`.
      `codes(id)` is what the command of job `id` returns when it is run. */
  datatype State = State(total: nat, codes: nat -> int, jobs: seq<Job>, input: seq<nat>, output: seq<nat>, collected: seq<nat>,
                         workers: seq<Worker>, main: Main, threadExit: bool,
                         passed: nat, skipped: nat)

  // ---------- Steps ----------

  /** The jobs `todo` are ready to be dispatched and the workers are started. */
  function Start(todo: seq<Job>, codes: nat -> int, processors: nat): State {
    State(|todo|, codes, todo + Pills(processors), [], [], [], seq(processors, _ => Waiting), Dispatch(0), false, 0, 0)
  }

  /** No job is marked when it is dispatched. */
  ghost predicate Unmarked(todo: seq<Job>) {
    forall i :: 0 <= i < |todo| ==> !todo[i].isBreak
  }

  function Pills(n: nat): seq<Job> { seq(n, _ => Job(true, false, 0)) }

  function MainStep(s: State): Option<State>
    requires Shape(s)
  {
    match s.main
    case Dispatch(n) =>
      if n < s.total then Some(s.(input := s.input + [n], main := Dispatch(n + 1)))
      else Some(s.(main := Pill(0)))
    case Pill(n) =>
      if n < |s.workers| then Some(s.(input := s.input + [s.total + n], main := Pill(n + 1)))
      else Some(s.(main := Collect(0)))
    case Collect(n) =>
      if n >= s.total then Some(s.(main := Join(0)))
      else if s.output == [] then None
      else
        var id := s.output[0];
        var job := s.jobs[id];
        Some(s.(output := s.output[1..], collected := s.collected + [id], main := Collect(n + 1),
                skipped := s.skipped + (if !job.isBreak && job.isSkip then 1 else 0),
                passed := s.passed + (if !job.isBreak && !job.isSkip && job.returncode == 0 then 1 else 0)))
    case Join(n) =>
      if n >= |s.workers| then Some(s.(main := Finished))
      else if s.workers[n].Exited? then Some(s.(main := Join(n + 1)))
      else None
    case Finished => None
  }

  /** One step of worker `w`. */
  function WorkerStep(s: State, w: nat): Option<State>
    requires Shape(s) && w < |s.workers|
  {
    match s.workers[w]
    case Waiting =>
      if s.input == [] then None
      else Some(s.(input := s.input[1..], workers := s.workers[w := Got(s.input[0])]))
    case Got(id) =>
      Some(s.(workers := s.workers[w := if s.jobs[id].isBreak then Exited(id) else Checked(id)]))
    case Checked(id) =>
      Some(s.(workers := s.workers[w := if s.threadExit then Breaking(id) else Deciding(id)]))
    case Breaking(id) =>
      Some(s.(jobs := s.jobs[id := s.jobs[id].(isBreak := true)], workers := s.workers[w := Returning(id)]))
    case Deciding(id) =>
      Some(s.(workers := s.workers[w := if s.jobs[id].isSkip then Returning(id) else Running(id)]))
    case Running(id) =>
      Some(s.(jobs := s.jobs[id := s.jobs[id].(returncode := s.codes(id))], workers := s.workers[w := Returning(id)]))
    case Returning(id) =>
      Some(s.(output := s.output + [id], workers := s.workers[w := Waiting]))
    case Exited(_) => None
  }

  datatype Action = MainActs | WorkerActs(w: nat) | Interrupt

  /** The state after an action, or `None` when the thread is blocked or finished.
      A signal raises the flag; a second one finds it raised. */
  function Act(s: State, a: Action): Option<State>
    requires Shape(s)
  {
    match a
    case MainActs => MainStep(s)
    case WorkerActs(w) => if w < |s.workers| then WorkerStep(s, w) else None
    case Interrupt => if s.threadExit then None else Some(s.(threadExit := true))
  }

  // ---------- Invariant ----------

  predicate Holds(w: Worker) { !w.Waiting? }

  /** Queue contents and held jobs are real job numbers. */
  ghost predicate Shape(s: State) {
    && |s.jobs| == s.total + |s.workers|
    && (forall i :: 0 <= i < |s.input| ==> s.input[i] < |s.jobs|)
    && (forall i :: 0 <= i < |s.output| ==> s.output[i] < |s.jobs|)
    && (forall w :: 0 <= w < |s.workers| && Holds(s.workers[w]) ==> s.workers[w].id < |s.jobs|)
  }

  function Own(w: Worker, id: nat): nat { if Holds(w) && w.id == id then 1 else 0 }

  function HeldCount(workers: seq<Worker>, id: nat): nat {
    if workers == [] then 0 else Own(workers[0], id) + HeldCount(workers[1..], id)
  }

  function Busy(workers: seq<Worker>): nat {
    if workers == [] then 0 else (if Holds(workers[0]) then 1 else 0) + Busy(workers[1..])
  }

  function Count(ids: seq<nat>, id: nat): nat {
    if ids == [] then 0 else (if ids[0] == id then 1 else 0) + Count(ids[1..], id)
  }

  /** In how many places job or pill `id` is: queued, held by a worker, or collected. */
  function Places(s: State, id: nat): nat {
    Count(s.input, id) + HeldCount(s.workers, id) + Count(s.output, id) + Count(s.collected, id)
  }

  /** How many jobs and pills main has put on the input queue so far. */
  function Sent(s: State): nat {
    match s.main
    case Dispatch(n) => n
    case Pill(n) => s.total + n
    case _ => s.total + |s.workers|
  }

  predicate Bounds(s: State) {
    match s.main
    case Dispatch(n) => n <= s.total && s.collected == []
    case Pill(n) => n <= |s.workers| && s.collected == []
    case Collect(n) => n <= s.total && |s.collected| == n
    case Join(n) => n <= |s.workers| && |s.collected| == s.total && forall w :: 0 <= w < n ==> s.workers[w].Exited?
    case Finished => |s.collected| == s.total && forall w :: 0 <= w < |s.workers| ==> s.workers[w].Exited?
  }

  /** What may be true of a worker and the job it holds. A job is marked only between `Breaking` and its end,
      so a marked job that a worker takes from the queue is a pill. */
  predicate WorkerOk(s: State, w: Worker)
    requires Holds(w) ==> w.id < |s.jobs|
  {
    match w
    case Waiting => true
    case Got(id) => id < s.total ==> !s.jobs[id].isBreak
    case Checked(id) => id < s.total && !s.jobs[id].isBreak
    case Breaking(id) => id < s.total && !s.jobs[id].isBreak && s.threadExit
    case Deciding(id) => id < s.total && !s.jobs[id].isBreak
    case Running(id) => id < s.total && !s.jobs[id].isBreak && !s.jobs[id].isSkip
    case Returning(id) => id < s.total && Done(s, id)
    case Exited(id) => s.total <= id
  }

  /** A job that needs no more work: interrupted, to be skipped, or run to its end. */
  predicate Done(s: State, id: nat)
    requires id < |s.jobs|
  {
    s.jobs[id].isBreak || s.jobs[id].isSkip || s.jobs[id].returncode == s.codes(id)
  }

  predicate IsPassed(j: Job) { !j.isBreak && !j.isSkip && j.returncode == 0 }
  predicate IsSkipped(j: Job) { !j.isBreak && j.isSkip }

  function CountPassed(jobs: seq<Job>, ids: seq<nat>): nat
    requires forall i :: 0 <= i < |ids| ==> ids[i] < |jobs|
  {
    if ids == [] then 0
    else CountPassed(jobs, ids[..|ids| - 1]) + (if IsPassed(jobs[ids[|ids| - 1]]) then 1 else 0)
  }

  function CountSkipped(jobs: seq<Job>, ids: seq<nat>): nat
    requires forall i :: 0 <= i < |ids| ==> ids[i] < |jobs|
  {
    if ids == [] then 0
    else CountSkipped(jobs, ids[..|ids| - 1]) + (if IsSkipped(jobs[ids[|ids| - 1]]) then 1 else 0)
  }

  /** The queue part: first in, first out, and nothing lost or duplicated. */
  ghost predicate Conserved(s: State) {
    && (forall id: nat :: Places(s, id) == if id < Sent(s) then 1 else 0)
    && |s.input| + Busy(s.workers) + |s.output| + |s.collected| == Sent(s)
    && (forall i :: 0 <= i < |s.input| ==> s.input[i] == Sent(s) - |s.input| + i)
    && (forall w :: 0 <= w < |s.workers| && Holds(s.workers[w]) ==> s.workers[w].id < Sent(s) - |s.input|)
  }

  ghost predicate JobsOk(s: State, todo: seq<Job>)
    requires Shape(s)
  {
    && s.total == |todo|
    && (forall id :: 0 <= id < s.total ==> s.jobs[id].isSkip == todo[id].isSkip)
    && (forall id :: s.total <= id < |s.jobs| ==> s.jobs[id].isBreak)
    && (!s.threadExit ==> forall id :: 0 <= id < s.total ==> !s.jobs[id].isBreak)
    && (forall i :: 0 <= i < |s.input| && s.input[i] < s.total ==> !s.jobs[s.input[i]].isBreak)
    && (forall id :: Sent(s) <= id < s.total ==> !s.jobs[id].isBreak)
    && (forall w :: 0 <= w < |s.workers| ==> WorkerOk(s, s.workers[w]))
    && (forall i :: 0 <= i < |s.output| ==> s.output[i] < s.total && Done(s, s.output[i]))
    && (forall i :: 0 <= i < |s.collected| ==> s.collected[i] < s.total && Done(s, s.collected[i]))
    && s.passed == CountPassed(s.jobs, s.collected)
    && s.skipped == CountSkipped(s.jobs, s.collected)
  }

  ghost predicate Inv(s: State, todo: seq<Job>) {
    Shape(s) && Bounds(s) && Conserved(s) && JobsOk(s, todo)
  }

  // ---------- Every step keeps the invariant ----------

  lemma {:induction false} HeldUpdate(ws: seq<Worker>, w: nat, x: Worker, id: nat)
    requires w < |ws|
    ensures HeldCount(ws[w := x], id) + Own(ws[w], id) == HeldCount(ws, id) + Own(x, id)
  {
    if w == 0 {
      assert ws[0 := x][1..] == ws[1..];
    } else {
      HeldUpdate(ws[1..], w - 1, x, id);
      assert ws[w := x][1..] == ws[1..][w - 1 := x];
    }
  }

  lemma {:induction false} BusyUpdate(ws: seq<Worker>, w: nat, x: Worker)
    requires w < |ws|
    ensures Busy(ws[w := x]) + (if Holds(ws[w]) then 1 else 0) == Busy(ws) + (if Holds(x) then 1 else 0)
  {
    if w == 0 {
      assert ws[0 := x][1..] == ws[1..];
    } else {
      BusyUpdate(ws[1..], w - 1, x);
      assert ws[w := x][1..] == ws[1..][w - 1 := x];
    }
  }

  lemma {:induction false} BusyBound(ws: seq<Worker>)
    ensures Busy(ws) <= |ws|
    ensures (exists w :: 0 <= w < |ws| && ws[w].Waiting?) ==> Busy(ws) < |ws|
  {
    if ws != [] {
      BusyBound(ws[1..]);
      if w :| 0 <= w < |ws| && ws[w].Waiting? {
        if w > 0 { assert ws[1..][w - 1].Waiting?; }
      }
    }
  }

  lemma {:induction false} AllWaiting(ws: seq<Worker>, id: nat)
    requires forall w :: 0 <= w < |ws| ==> ws[w].Waiting?
    ensures HeldCount(ws, id) == 0 && Busy(ws) == 0
  {
    if ws != [] { AllWaiting(ws[1..], id); }
  }

  lemma {:induction false} CountAppend(ids: seq<nat>, x: nat, id: nat)
    ensures Count(ids + [x], id) == Count(ids, id) + (if x == id then 1 else 0)
  {
    if ids != [] {
      assert (ids + [x])[1..] == ids[1..] + [x];
      CountAppend(ids[1..], x, id);
    }
  }

  lemma {:induction false} CountMember(ids: seq<nat>, id: nat)
    ensures id in ids <==> Count(ids, id) > 0
  {
    if ids != [] { CountMember(ids[1..], id); }
  }

  lemma StartInv(todo: seq<Job>, codes: nat -> int, processors: nat)
    requires Unmarked(todo)
    ensures Inv(Start(todo, codes, processors), todo)
  {
    forall id: nat { AllWaiting(Start(todo, codes, processors).workers, id); }
    AllWaiting(Start(todo, codes, processors).workers, 0);
  }

  /** Changing a held job leaves the counts over collected jobs alone. */
  lemma {:induction false} CountsFrame(jobs: seq<Job>, id: nat, j: Job, ids: seq<nat>)
    requires id < |jobs| && id !in ids && forall i :: 0 <= i < |ids| ==> ids[i] < |jobs|
    ensures CountPassed(jobs[id := j], ids) == CountPassed(jobs, ids)
    ensures CountSkipped(jobs[id := j], ids) == CountSkipped(jobs, ids)
  {
    if ids != [] {
      assert ids[|ids| - 1] in ids;
      CountsFrame(jobs, id, j, ids[..|ids| - 1]);
    }
  }

  /** A held job is nowhere else. */
  lemma HeldElsewhere(s: State, w: nat)
    requires Conserved(s) && w < |s.workers| && Holds(s.workers[w])
    ensures s.workers[w].id < Sent(s)
    ensures s.workers[w].id !in s.input && s.workers[w].id !in s.output && s.workers[w].id !in s.collected
    ensures forall v :: 0 <= v < |s.workers| && v != w && Holds(s.workers[v]) ==> s.workers[v].id != s.workers[w].id
  {
    var id := s.workers[w].id;
    HeldUpdate(s.workers, w, Waiting, id);
    assert Places(s, id) <= 1;
    CountMember(s.input, id); CountMember(s.output, id); CountMember(s.collected, id);
    forall v | 0 <= v < |s.workers| && v != w && Holds(s.workers[v]) ensures s.workers[v].id != id {
      HeldUpdate(s.workers[w := Waiting], v, Waiting, id);
    }
  }

  lemma SendKeepsConserved(s: State, s': State)
    requires Conserved(s) && Sent(s') == Sent(s) + 1
    requires s' == s.(input := s.input + [Sent(s)], main := s'.main)
    ensures Conserved(s')
  {
    forall id: nat ensures Places(s', id) == if id < Sent(s') then 1 else 0 {
      CountAppend(s.input, Sent(s), id);
      assert Places(s, id) == if id < Sent(s) then 1 else 0;
    }
  }

  lemma CollectKeepsConserved(s: State, s': State)
    requires Conserved(s) && Sent(s') == Sent(s) && s.output != []
    requires s' == s.(output := s.output[1..], collected := s.collected + [s.output[0]], main := s'.main,
                      passed := s'.passed, skipped := s'.skipped)
    ensures Conserved(s')
  {
    forall id: nat ensures Places(s', id) == if id < Sent(s') then 1 else 0 {
      CountAppend(s.collected, s.output[0], id);
      assert Places(s, id) == if id < Sent(s) then 1 else 0;
    }
  }

  lemma RestKeepsConserved(s: State, s': State)
    requires Conserved(s) && Sent(s') == Sent(s)
    requires s'.input == s.input && s'.output == s.output && s'.collected == s.collected && s'.workers == s.workers
    ensures Conserved(s')
  {
    forall id: nat ensures Places(s', id) == if id < Sent(s') then 1 else 0 {
      assert Places(s, id) == if id < Sent(s) then 1 else 0;
    }
  }

  lemma MainKeepsConserved(s: State)
    requires Shape(s) && Bounds(s) && Conserved(s) && MainStep(s).Some?
    ensures Conserved(MainStep(s).value)
  {
    var s' := MainStep(s).value;
    match s.main
    case Dispatch(n) => if n < s.total { SendKeepsConserved(s, s'); } else { RestKeepsConserved(s, s'); }
    case Pill(n) => if n < |s.workers| { SendKeepsConserved(s, s'); } else { RestKeepsConserved(s, s'); }
    case Collect(n) => if n < s.total { CollectKeepsConserved(s, s'); } else { RestKeepsConserved(s, s'); }
    case Join(_) => RestKeepsConserved(s, s');
    case Finished =>
  }

  lemma MainKeepsShape(s: State)
    requires Shape(s) && Bounds(s) && MainStep(s).Some?
    ensures Shape(MainStep(s).value) && Bounds(MainStep(s).value)
  {
    MainKeepsBounds(s);
    hide Bounds;
  }

  lemma MainKeepsBounds(s: State)
    requires Shape(s) && Bounds(s) && MainStep(s).Some?
    ensures Bounds(MainStep(s).value)
  {
  }

  lemma CollectCounts(jobs: seq<Job>, ids: seq<nat>, id: nat)
    requires id < |jobs| && forall i :: 0 <= i < |ids| ==> ids[i] < |jobs|
    ensures CountPassed(jobs, ids + [id]) == CountPassed(jobs, ids) + (if IsPassed(jobs[id]) then 1 else 0)
    ensures CountSkipped(jobs, ids + [id]) == CountSkipped(jobs, ids) + (if IsSkipped(jobs[id]) then 1 else 0)
  {
    assert (ids + [id])[..|ids|] == ids;
  }

  /** Steps that leave the jobs alone leave the workers right. */
  lemma SameJobs(s: State, s': State)
    requires Shape(s) && Shape(s') && forall w :: 0 <= w < |s.workers| ==> WorkerOk(s, s.workers[w])
    requires s'.workers == s.workers && s'.jobs == s.jobs && s'.total == s.total && s'.codes == s.codes
    requires s.threadExit ==> s'.threadExit
    ensures forall w :: 0 <= w < |s'.workers| ==> WorkerOk(s', s'.workers[w])
  {
    forall w | 0 <= w < |s'.workers| ensures WorkerOk(s', s'.workers[w]) { assert WorkerOk(s, s.workers[w]); }
  }

  /** Collecting a job moves it and counts it. */
  lemma MainCollects(s: State)
    requires Shape(s) && s.main.Collect? && s.main.n < s.total && s.output != []
    ensures var job := s.jobs[s.output[0]];
            MainStep(s) == Some(s.(output := s.output[1..], collected := s.collected + [s.output[0]], main := Collect(s.main.n + 1),
                                   skipped := s.skipped + (if IsSkipped(job) then 1 else 0),
                                   passed := s.passed + (if IsPassed(job) then 1 else 0)))
  {
  }

  lemma CollectKeepsJobs(s: State, todo: seq<Job>)
    requires Inv(s, todo) && s.main.Collect? && s.main.n < s.total && s.output != []
    ensures Shape(MainStep(s).value) && JobsOk(MainStep(s).value, todo)
  {
    MainCollects(s);
    var s' := MainStep(s).value;
    MainKeepsShape(s);
    CollectCounts(s.jobs, s.collected, s.output[0]);
    SameJobs(s, s');
    hide MainStep, IsPassed, IsSkipped, WorkerOk, Done, CountPassed, CountSkipped, Conserved, Bounds;
  }

  lemma SendKeepsJobs(s: State, s': State, todo: seq<Job>)
    requires Shape(s) && JobsOk(s, todo) && Shape(s') && Sent(s') >= Sent(s)
    requires s' == s.(input := s'.input, main := s'.main)
    requires s'.input == s.input || s'.input == s.input + [Sent(s)]
    ensures JobsOk(s', todo)
  {
    forall i | 0 <= i < |s'.input| && s'.input[i] < s'.total ensures !s'.jobs[s'.input[i]].isBreak {
      if i < |s.input| { assert s'.input[i] == s.input[i]; }
    }
    SameJobs(s, s');
  }

  lemma MainKeepsInv(s: State, todo: seq<Job>)
    requires Inv(s, todo) && MainStep(s).Some?
    ensures Inv(MainStep(s).value, todo)
  {
    MainKeepsShape(s);
    MainKeepsConserved(s);
    hide Conserved, JobsOk, Shape, Bounds;
    if s.main.Collect? && s.main.n < s.total { CollectKeepsJobs(s, todo); } else { SendKeepsJobs(s, MainStep(s).value, todo); }
  }

  // ---------- Worker steps ----------

  /** A worker changes only its own standing and perhaps its own job. */
  lemma MoveKeepsConserved(s: State, s': State, w: nat, x: Worker)
    requires Conserved(s) && w < |s.workers| && Holds(s.workers[w]) && Holds(x) && x.id == s.workers[w].id
    requires s' == s.(workers := s.workers[w := x], jobs := s'.jobs)
    ensures Conserved(s')
  {
    BusyUpdate(s.workers, w, x);
    forall id: nat ensures Places(s', id) == if id < Sent(s') then 1 else 0 {
      HeldUpdate(s.workers, w, x, id);
      assert Places(s, id) == if id < Sent(s) then 1 else 0;
    }
  }

  lemma TakeKeepsConserved(s: State, s': State, w: nat)
    requires Conserved(s) && w < |s.workers| && s.workers[w].Waiting? && s.input != []
    requires s' == s.(input := s.input[1..], workers := s.workers[w := Got(s.input[0])])
    ensures Conserved(s')
  {
    BusyUpdate(s.workers, w, Got(s.input[0]));
    forall id: nat ensures Places(s', id) == if id < Sent(s') then 1 else 0 {
      HeldUpdate(s.workers, w, Got(s.input[0]), id);
      assert Places(s, id) == if id < Sent(s) then 1 else 0;
    }
  }

  lemma PutKeepsConserved(s: State, s': State, w: nat)
    requires Conserved(s) && w < |s.workers| && s.workers[w].Returning?
    requires s' == s.(output := s.output + [s.workers[w].id], workers := s.workers[w := Waiting])
    ensures Conserved(s')
  {
    BusyUpdate(s.workers, w, Waiting);
    forall id: nat ensures Places(s', id) == if id < Sent(s') then 1 else 0 {
      HeldUpdate(s.workers, w, Waiting, id);
      CountAppend(s.output, s.workers[w].id, id);
      assert Places(s, id) == if id < Sent(s) then 1 else 0;
    }
  }

  lemma WorkerKeepsConserved(s: State, w: nat)
    requires Shape(s) && Conserved(s) && w < |s.workers| && WorkerStep(s, w).Some?
    ensures Conserved(WorkerStep(s, w).value)
  {
    var s' := WorkerStep(s, w).value;
    match s.workers[w]
    case Waiting => TakeKeepsConserved(s, s', w);
    case Returning(_) => PutKeepsConserved(s, s', w);
    case Exited(_) =>
    case _ => MoveKeepsConserved(s, s', w, s'.workers[w]);
  }

  lemma MoveKeepsShape(s: State, s': State, w: nat, x: Worker)
    requires Shape(s) && Bounds(s) && w < |s.workers| && !s.workers[w].Exited?
    requires s' == s.(workers := s.workers[w := x], input := s'.input, output := s'.output, jobs := s'.jobs)
    requires |s'.jobs| == |s.jobs| && (Holds(x) ==> x.id < |s.jobs|)
    requires s'.input == s.input || (s.input != [] && s'.input == s.input[1..])
    requires s'.output == s.output || (Holds(s.workers[w]) && s'.output == s.output + [s.workers[w].id])
    ensures Shape(s') && Bounds(s')
  {
  }

  /** Steps that leave every job alone. */
  lemma QuietKeepsJobs(s: State, s': State, todo: seq<Job>, w: nat, x: Worker)
    requires Inv(s, todo) && Shape(s') && w < |s.workers|
    requires s' == s.(workers := s.workers[w := x], input := s'.input, output := s'.output)
    requires s'.input == s.input || (s.input != [] && s'.input == s.input[1..])
    requires s'.output == s.output || (s.workers[w].Returning? && s'.output == s.output + [s.workers[w].id])
    requires (Holds(x) ==> x.id < |s'.jobs|) && WorkerOk(s', x)
    ensures JobsOk(s', todo)
  {
    hide Conserved, Bounds, CountPassed, CountSkipped;
    assert forall v :: 0 <= v < |s.workers| && v != w ==> s'.workers[v] == s.workers[v] && WorkerOk(s, s.workers[v]);
    assert WorkerOk(s, s.workers[w]);
    forall v | 0 <= v < |s'.workers| ensures WorkerOk(s', s'.workers[v]) {
      if v != w { assert WorkerOk(s, s.workers[v]); }
    }
  }

  /** A step that writes `j` into the job held by worker `w`. */
  ghost predicate Writes(s: State, s': State, w: nat, j: Job)
    requires Shape(s)
  {
    && w < |s.workers| && (s.workers[w].Breaking? || s.workers[w].Running?)
    && s' == s.(jobs := s.jobs[s.workers[w].id := j], workers := s.workers[w := Returning(s.workers[w].id)])
    && j.isSkip == s.jobs[s.workers[w].id].isSkip && (j.isBreak ==> s.threadExit)
    && (j.isBreak || j.returncode == s.codes(s.workers[w].id))
  }

  lemma WriteKeepsWorkers(s: State, s': State, todo: seq<Job>, w: nat, j: Job)
    requires Inv(s, todo) && Shape(s') && Writes(s, s', w, j)
    ensures forall v :: 0 <= v < |s'.workers| ==> WorkerOk(s', s'.workers[v])
    ensures s.workers[w].id < s.total
  {
    assert WorkerOk(s, s.workers[w]);
    HeldElsewhere(s, w);
    hide Conserved, Bounds, CountPassed, CountSkipped;
    forall v | 0 <= v < |s'.workers| ensures WorkerOk(s', s'.workers[v]) {
      assert WorkerOk(s, s.workers[v]);
    }
  }

  lemma WriteKeepsDone(s: State, s': State, w: nat, j: Job, ids: seq<nat>)
    requires Shape(s) && Shape(s') && Writes(s, s', w, j) && s.workers[w].id !in ids
    requires forall i :: 0 <= i < |ids| ==> ids[i] < s.total && Done(s, ids[i])
    ensures forall i :: 0 <= i < |ids| ==> ids[i] < s'.total && Done(s', ids[i])
  {
    forall i | 0 <= i < |ids| ensures ids[i] < s'.total && Done(s', ids[i]) {
      assert Done(s, ids[i]) && ids[i] in ids;
    }
  }

  lemma WriteKeepsJobs(s: State, s': State, todo: seq<Job>, w: nat, j: Job)
    requires Inv(s, todo) && Shape(s') && Writes(s, s', w, j)
    ensures JobsOk(s', todo)
  {
    var id := s.workers[w].id;
    WriteKeepsWorkers(s, s', todo, w, j);
    HeldElsewhere(s, w);
    CountsFrame(s.jobs, id, j, s.collected);
    WriteKeepsDone(s, s', w, j, s.output);
    WriteKeepsDone(s, s', w, j, s.collected);
    hide WorkerOk, Done, Conserved, Bounds, CountPassed, CountSkipped;
    forall i | 0 <= i < |s'.input| && s'.input[i] < s'.total ensures !s'.jobs[s'.input[i]].isBreak {
      assert s.input[i] in s.input;
    }
  }

  lemma WorkerKeepsShape(s: State, todo: seq<Job>, w: nat)
    requires Inv(s, todo) && w < |s.workers| && WorkerStep(s, w).Some?
    ensures Shape(WorkerStep(s, w).value) && Bounds(WorkerStep(s, w).value)
  {
    hide Conserved, JobsOk, Bounds;
    var s' := WorkerStep(s, w).value;
    MoveKeepsShape(s, s', w, s'.workers[w]);
  }

  lemma WorkerKeepsJobs(s: State, todo: seq<Job>, w: nat)
    requires Inv(s, todo) && w < |s.workers| && WorkerStep(s, w).Some? && Shape(WorkerStep(s, w).value)
    ensures JobsOk(WorkerStep(s, w).value, todo)
  {
    var s' := WorkerStep(s, w).value;
    assert WorkerOk(s, s.workers[w]);
    match s.workers[w]
    case Breaking(id) => WriteKeepsJobs(s, s', todo, w, s.jobs[id].(isBreak := true));
    case Running(id) => WriteKeepsJobs(s, s', todo, w, s.jobs[id].(returncode := s.codes(id)));
    case Waiting =>
      assert s.input[0] < s.total ==> !s.jobs[s.input[0]].isBreak;
      QuietKeepsJobs(s, s', todo, w, s'.workers[w]);
    case Exited(_) =>
    case _ => QuietKeepsJobs(s, s', todo, w, s'.workers[w]);
  }

  lemma WorkerKeepsInv(s: State, todo: seq<Job>, w: nat)
    requires Inv(s, todo) && w < |s.workers| && WorkerStep(s, w).Some?
    ensures Inv(WorkerStep(s, w).value, todo)
  {
    WorkerKeepsShape(s, todo, w);
    WorkerKeepsConserved(s, w);
    WorkerKeepsJobs(s, todo, w);
  }

  lemma InterruptKeepsInv(s: State, todo: seq<Job>)
    requires Inv(s, todo)
    ensures Inv(s.(threadExit := true), todo)
  {
    var s' := s.(threadExit := true);
    RestKeepsConserved(s, s');
    hide Conserved, CountPassed, CountSkipped;
    SameJobs(s, s');
  }

  lemma ActKeepsInv(s: State, todo: seq<Job>, a: Action)
    requires Inv(s, todo) && Act(s, a).Some?
    ensures Inv(Act(s, a).value, todo)
  {
    hide Inv, MainStep, WorkerStep;
    match a
    case MainActs => MainKeepsInv(s, todo);
    case WorkerActs(w) => WorkerKeepsInv(s, todo, w);
    case Interrupt => InterruptKeepsInv(s, todo);
  }

  // ---------- Termination ----------

  function Weight(w: Worker): nat {
    match w
    case Waiting => 0
    case Got(_) => 7
    case Checked(_) => 6
    case Breaking(_) => 5
    case Deciding(_) => 5
    case Running(_) => 4
    case Returning(_) => 3
    case Exited(_) => 0
  }

  function Weights(ws: seq<Worker>): nat {
    if ws == [] then 0 else Weight(ws[0]) + Weights(ws[1..])
  }

  function MainWeight(s: State): nat
    requires Bounds(s)
  {
    var n := |s.workers|;
    match s.main
    case Dispatch(d) => 9 * (s.total - d) + 9 * n + s.total + n + 4
    case Pill(p) => 9 * (n - p) + s.total + n + 3
    case Collect(c) => s.total - c + n + 2
    case Join(j) => n - j + 1
    case Finished => 0
  }

  /** Queued, running and uncollected jobs, pills, live workers, and the signal still to come. */
  function Measure(s: State): nat
    requires Bounds(s)
  {
    MainWeight(s) + 8 * |s.input| + Weights(s.workers) + 2 * |s.output| + (if s.threadExit then 0 else 1)
  }

  lemma {:induction false} WeightsUpdate(ws: seq<Worker>, w: nat, x: Worker)
    requires w < |ws|
    ensures Weights(ws[w := x]) + Weight(ws[w]) == Weights(ws) + Weight(x)
  {
    if w == 0 {
      assert ws[0 := x][1..] == ws[1..];
    } else {
      WeightsUpdate(ws[1..], w - 1, x);
      assert ws[w := x][1..] == ws[1..][w - 1 := x];
    }
  }

  /** What main does weighs more than what it leaves on the queues. */
  lemma MainLightens(s: State)
    requires Shape(s) && Bounds(s) && MainStep(s).Some? && Bounds(MainStep(s).value)
    ensures var s' := MainStep(s).value;
            && s'.workers == s.workers && s'.threadExit == s.threadExit
            && MainWeight(s') + 8 * |s'.input| + 2 * |s'.output| < MainWeight(s) + 8 * |s.input| + 2 * |s.output|
  {
    hide Shape;
  }

  lemma MainMeasure(s: State)
    requires Shape(s) && Bounds(s) && MainStep(s).Some?
    ensures Bounds(MainStep(s).value) && Measure(MainStep(s).value) < Measure(s)
  {
    MainKeepsBounds(s);
    hide Shape, Weights, Bounds;
    MainLightens(s);
  }

  lemma MoveMeasure(s: State, s': State, w: nat, x: Worker)
    requires Bounds(s) && Bounds(s') && w < |s.workers|
    requires s' == s.(workers := s.workers[w := x], input := s'.input, output := s'.output, jobs := s'.jobs)
    requires 8 * |s'.input| + Weight(x) + 2 * |s'.output| < 8 * |s.input| + Weight(s.workers[w]) + 2 * |s.output|
    ensures Measure(s') < Measure(s)
  {
    WeightsUpdate(s.workers, w, x);
  }

  lemma WorkerMeasure(s: State, w: nat)
    requires Shape(s) && w < |s.workers| && WorkerStep(s, w).Some?
    requires Bounds(s) && Bounds(WorkerStep(s, w).value)
    ensures Measure(WorkerStep(s, w).value) < Measure(s)
  {
    var s' := WorkerStep(s, w).value;
    MoveMeasure(s, s', w, s'.workers[w]);
  }

  lemma ActMeasure(s: State, a: Action)
    requires Shape(s) && Act(s, a).Some? && Bounds(s) && Bounds(Act(s, a).value)
    ensures Measure(Act(s, a).value) < Measure(s)
    ensures |Act(s, a).value.workers| == |s.workers| && Act(s, a).value.codes == s.codes
  {
    match a
    case MainActs => MainMeasure(s);
    case WorkerActs(w) => WorkerMeasure(s, w);
    case Interrupt =>
  }

  /** What every action keeps, and the measure it uses up. */
  lemma ActSummary(s: State, todo: seq<Job>, a: Action)
    requires Inv(s, todo) && Act(s, a).Some?
    ensures var s' := Act(s, a).value;
            Inv(s', todo) && |s'.workers| == |s.workers| && s'.codes == s.codes && Measure(s') < Measure(s)
  {
    ActKeepsInv(s, todo, a);
    ActMeasure(s, a);
  }

  // ---------- No deadlock ----------

  /** Distinct members below `n` number at most `n`; if there are `n` of them, nothing is missing. */
  lemma {:induction false} Pigeonhole(ids: seq<nat>, n: nat)
    requires forall i :: 0 <= i < |ids| ==> ids[i] < n
    requires forall id: nat :: Count(ids, id) <= 1
    ensures |ids| <= n
    ensures |ids| == n ==> forall id :: 0 <= id < n ==> Count(ids, id) == 1
    decreases n
  {
    if n == 0 {
    } else if k :| 0 <= k < |ids| && ids[k] == n - 1 {
      var rest := ids[..k] + ids[k + 1..];
      forall id: nat ensures Count(rest, id) == Count(ids, id) - (if id == n - 1 then 1 else 0) { CountRemove(ids, k, id); }
      assert Count(rest, n - 1) == Count(ids, n - 1) - 1;
      CountMember(rest, n - 1);
      assert forall i :: 0 <= i < |rest| ==> rest[i] in rest;
      Pigeonhole(rest, n - 1);
      CountMember(ids, n - 1);
    } else {
      Pigeonhole(ids, n - 1);
    }
  }

  lemma {:induction false} CountRemove(ids: seq<nat>, k: nat, id: nat)
    requires k < |ids|
    ensures Count(ids[..k] + ids[k + 1..], id) == Count(ids, id) - (if ids[k] == id then 1 else 0)
  {
    if k == 0 {
      assert ids[..0] + ids[1..] == ids[1..];
    } else {
      CountRemove(ids[1..], k - 1, id);
      assert (ids[..k] + ids[k + 1..])[1..] == ids[1..][..k - 1] + ids[1..][k..];
    }
  }

  lemma {:induction false} CoversAll(ids: seq<nat>, n: nat)
    requires forall id :: 0 <= id < n ==> Count(ids, id) == 1
    ensures n <= |ids|
    decreases n
  {
    if n > 0 {
      CountMember(ids, n - 1);
      var k :| 0 <= k < |ids| && ids[k] == n - 1;
      var rest := ids[..k] + ids[k + 1..];
      forall id | 0 <= id < n - 1 ensures Count(rest, id) == 1 { CountRemove(ids, k, id); }
      CoversAll(rest, n - 1);
    }
  }

  lemma CollectedOnce(s: State)
    requires Conserved(s)
    ensures forall id: nat :: Count(s.collected, id) <= 1
  {
    forall id: nat ensures Count(s.collected, id) <= 1 {
      assert Places(s, id) == if id < Sent(s) then 1 else 0;
    }
  }

  lemma SomeCounted(ids: seq<nat>, n: nat)
    requires forall i :: 0 <= i < |ids| ==> ids[i] < n
    ensures ids == [] || exists id :: 0 <= id < n && Count(ids, id) > 0
  {
    if ids != [] { assert Count(ids, ids[0]) > 0; }
  }

  /** Once everything is collected, nothing is left on the output queue. */
  lemma OutputDrained(s: State, todo: seq<Job>)
    requires Inv(s, todo) && (s.main.Join? || s.main.Finished?)
    ensures s.output == [] && forall id :: 0 <= id < s.total ==> Count(s.collected, id) == 1
  {
    CollectedOnce(s);
    Pigeonhole(s.collected, s.total);
    SomeCounted(s.output, s.total);
    forall id | 0 <= id < s.total ensures Count(s.output, id) == 0 { assert Places(s, id) <= 1; }
  }

  ghost predicate Stuck(s: State)
    requires Shape(s)
  {
    MainStep(s).None? && forall w :: 0 <= w < |s.workers| ==> WorkerStep(s, w).None?
  }

  lemma CollectNotStuck(s: State, todo: seq<Job>)
    requires Inv(s, todo) && s.workers != [] && s.main.Collect?
    ensures !Stuck(s)
  {
    if Stuck(s) {
      assert s.output == [] && s.main.n < s.total;
      BusyBound(s.workers);
      assert s.input != [];
      assert WorkerStep(s, 0).None?;
      assert s.workers[0].Exited? && WorkerOk(s, s.workers[0]);
      // The pill of worker 0 came off the queue after every job did, so every job is held or collected.
      forall v | 0 <= v < |s.workers| && Holds(s.workers[v]) ensures s.total <= s.workers[v].id {
        assert WorkerStep(s, v).None? && WorkerOk(s, s.workers[v]);
      }
      forall id | 0 <= id < s.total ensures Count(s.collected, id) == 1 {
        assert Places(s, id) == 1;
        CountMember(s.input, id);
        NoJobHeld(s.workers, id);
      }
      CoversAll(s.collected, s.total);
    }
  }

  lemma {:induction false} NoJobHeld(ws: seq<Worker>, id: nat)
    requires forall w :: 0 <= w < |ws| && Holds(ws[w]) ==> ws[w].id != id
    ensures HeldCount(ws, id) == 0
  {
    if ws != [] { NoJobHeld(ws[1..], id); }
  }

  lemma JoinNotStuck(s: State, todo: seq<Job>)
    requires Inv(s, todo) && s.main.Join?
    ensures !Stuck(s)
  {
    OutputDrained(s, todo);
    BusyBound(s.workers);
    var w := s.main.n;
    if w < |s.workers| && !s.workers[w].Exited? {
      assert s.workers[w].Waiting? ==> s.input != [];
      assert WorkerStep(s, w).Some?;
    }
  }

  /** Every reachable state is finished or has a thread that can move, signals aside. */
  lemma NeverStuck(s: State, todo: seq<Job>)
    requires Inv(s, todo) && s.workers != [] && !s.main.Finished?
    ensures exists a: Action :: !a.Interrupt? && Act(s, a).Some?
  {
    if s.main.Collect? { CollectNotStuck(s, todo); }
    if s.main.Join? { JoinNotStuck(s, todo); }
    if MainStep(s).Some? {
      assert Act(s, MainActs).Some?;
    } else {
      var w :| 0 <= w < |s.workers| && WorkerStep(s, w).Some?;
      assert Act(s, WorkerActs(w)).Some?;
    }
  }

  // ---------- Whole runs ----------

  /** Steps neither add jobs or workers nor change what the commands return. */
  ghost predicate SameSizes(s: State, s': State) {
    s'.total == s.total && |s'.workers| == |s.workers| && s'.codes == s.codes
  }

  lemma MainKeepsSizes(s: State)
    requires Shape(s) && MainStep(s).Some?
    ensures Shape(MainStep(s).value) && SameSizes(s, MainStep(s).value)
  {
  }

  lemma WorkerKeepsSizes(s: State, w: nat)
    requires Shape(s) && w < |s.workers| && WorkerStep(s, w).Some?
    ensures Shape(WorkerStep(s, w).value) && SameSizes(s, WorkerStep(s, w).value)
  {
  }

  lemma ActKeepsSizes(s: State, a: Action)
    requires Shape(s) && Act(s, a).Some?
    ensures Shape(Act(s, a).value) && SameSizes(s, Act(s, a).value)
  {
    hide MainStep, WorkerStep;
    match a
    case MainActs => MainKeepsSizes(s);
    case WorkerActs(w) => WorkerKeepsSizes(s, w);
    case Interrupt =>
  }

  /** The state after a run from `Start`, or `None` when some action in it was not possible. */
  ghost function Exec(todo: seq<Job>, codes: nat -> int, processors: nat, actions: seq<Action>): (r: Option<State>)
    ensures r.Some? ==> Shape(r.value) && SameSizes(Start(todo, codes, processors), r.value)
  {
    if actions == [] then Some(Start(todo, codes, processors))
    else
      var before := Exec(todo, codes, processors, actions[..|actions| - 1]);
      var a := actions[|actions| - 1];
      if before.None? || Act(before.value, a).None? then None
      else
        ActKeepsSizes(before.value, a);
        Act(before.value, a)
  }

  /** Every reachable state satisfies the invariant, and each action so far has used up some of the initial measure. */
  lemma {:induction false} RunInv(todo: seq<Job>, codes: nat -> int, processors: nat, actions: seq<Action>)
    requires Unmarked(todo) && Exec(todo, codes, processors, actions).Some?
    ensures var s := Exec(todo, codes, processors, actions).value;
            && Inv(s, todo) && Measure(s) + |actions| <= MeasureAtStart(todo, processors)
  {
    hide Inv, Act, Measure;
    if actions == [] {
      StartInv(todo, codes, processors);
      StartMeasure(todo, codes, processors);
    } else {
      var before := actions[..|actions| - 1];
      RunInv(todo, codes, processors, before);
      ActSummary(Exec(todo, codes, processors, before).value, todo, actions[|actions| - 1]);
    }
  }

  /** 9 for each job and pill to send, and what collecting and joining take. */
  function MeasureAtStart(todo: seq<Job>, processors: nat): nat { 10 * |todo| + 10 * processors + 5 }

  lemma {:induction false} WaitingWeighNothing(ws: seq<Worker>)
    requires forall w :: 0 <= w < |ws| ==> ws[w].Waiting?
    ensures Weights(ws) == 0
  {
    if ws != [] { WaitingWeighNothing(ws[1..]); }
  }

  lemma StartMeasure(todo: seq<Job>, codes: nat -> int, processors: nat)
    ensures Bounds(Start(todo, codes, processors))
    ensures Measure(Start(todo, codes, processors)) == MeasureAtStart(todo, processors)
  {
    WaitingWeighNothing(Start(todo, codes, processors).workers);
  }

  /** The status `run_tests` returns. */
  function ExitStatus(s: State): int { if s.passed + s.skipped == s.total then 0 else 1 }

  /** At any moment of any run: each job sent is in exactly one place, what has been collected are jobs,
      a worker has exited only on a pill, and then no job is left on the input queue; a marked job that a worker has
      taken is a pill, and without an interrupt no job is ever marked. */
  lemma PoolSafety(todo: seq<Job>, codes: nat -> int, processors: nat, actions: seq<Action>)
    requires Unmarked(todo)
    requires Exec(todo, codes, processors, actions).Some?
    ensures var s := Exec(todo, codes, processors, actions).value;
            && (forall id: nat :: Places(s, id) == if id < Sent(s) then 1 else 0)
            && (forall i :: 0 <= i < |s.collected| ==> s.collected[i] < |todo|)
            && (forall w :: 0 <= w < |s.workers| && s.workers[w].Exited? ==>
                  |todo| <= s.workers[w].id && forall i :: 0 <= i < |s.input| ==> |todo| <= s.input[i])
            && (forall w :: 0 <= w < |s.workers| && s.workers[w].Got? && s.jobs[s.workers[w].id].isBreak ==> |todo| <= s.workers[w].id)
            && (forall w :: 0 <= w < |s.workers| && s.workers[w].Running? ==>
                  s.workers[w].id < |todo| && !todo[s.workers[w].id].isSkip && !s.jobs[s.workers[w].id].isBreak)
            && (!s.threadExit ==> forall id :: 0 <= id < |todo| ==> !s.jobs[id].isBreak)
  {
    RunInv(todo, codes, processors, actions);
    var s := Exec(todo, codes, processors, actions).value;
    hide Exec, Measure;
    forall w | 0 <= w < |s.workers| && s.workers[w].Exited?
      ensures |todo| <= s.workers[w].id && forall i :: 0 <= i < |s.input| ==> |todo| <= s.input[i]
    {
      assert WorkerOk(s, s.workers[w]);
    }
    forall w | 0 <= w < |s.workers| && s.workers[w].Running?
      ensures s.workers[w].id < |todo| && !todo[s.workers[w].id].isSkip && !s.jobs[s.workers[w].id].isBreak
    {
      assert WorkerOk(s, s.workers[w]);
    }
    forall w | 0 <= w < |s.workers| && s.workers[w].Got? && s.jobs[s.workers[w].id].isBreak ensures |todo| <= s.workers[w].id {
      assert WorkerOk(s, s.workers[w]);
    }
  }

  lemma ExecStep(todo: seq<Job>, codes: nat -> int, processors: nat, actions: seq<Action>, a: Action)
    requires Exec(todo, codes, processors, actions).Some?
    requires Act(Exec(todo, codes, processors, actions).value, a).Some?
    ensures Exec(todo, codes, processors, actions + [a]).Some?
  {
    hide Act, Inv, Shape, Measure;
    assert (actions + [a])[..|actions + [a]| - 1] == actions;
  }

  // ---------- After the signal ----------

  /** Action `a` makes worker `w` run the command of the job it holds. */
  predicate StartsCommand(s: State, a: Action, w: nat)
    requires Shape(s)
  {
    a == WorkerActs(w) && w < |s.workers| && s.workers[w].Deciding? && !s.jobs[s.workers[w].id].isSkip
  }

  predicate IsDeciding(s: State, w: nat) { w < |s.workers| && s.workers[w].Deciding? }

  /** How many commands worker `w` starts in the run, its first `since` actions aside. */
  ghost function CommandsStarted(todo: seq<Job>, codes: nat -> int, processors: nat, actions: seq<Action>, w: nat, since: nat): nat
    requires Exec(todo, codes, processors, actions).Some?
  {
    if |actions| <= since then 0
    else
      var before := actions[..|actions| - 1];
      CommandsStarted(todo, codes, processors, before, w, since) +
      if StartsCommand(Exec(todo, codes, processors, before).value, actions[|actions| - 1], w) then 1 else 0
  }

  /** Once the flag is raised no worker comes to decide anew; one that has decided either starts its command or skips it. */
  lemma FlagStops(s: State, a: Action, w: nat)
    requires Shape(s) && s.threadExit && Act(s, a).Some?
    ensures var s' := Act(s, a).value;
            && s'.threadExit
            && (if IsDeciding(s', w) then 1 else 0) + (if StartsCommand(s, a, w) then 1 else 0) <= (if IsDeciding(s, w) then 1 else 0)
  {
  }

  /** After the signal, each worker starts at most one more command, and only if it had already read the flag. */
  lemma {:induction false} AfterSignal(todo: seq<Job>, codes: nat -> int, processors: nat, actions: seq<Action>, w: nat, since: nat)
    requires Exec(todo, codes, processors, actions).Some? && since <= |actions|
    requires Exec(todo, codes, processors, actions[..since]).Some? && Exec(todo, codes, processors, actions[..since]).value.threadExit
    ensures Exec(todo, codes, processors, actions).value.threadExit
    ensures CommandsStarted(todo, codes, processors, actions, w, since) +
            (if IsDeciding(Exec(todo, codes, processors, actions).value, w) then 1 else 0) <=
            if IsDeciding(Exec(todo, codes, processors, actions[..since]).value, w) then 1 else 0
    decreases |actions|
  {
    if |actions| == since {
      assert actions[..since] == actions;
    } else {
      var before := actions[..|actions| - 1];
      assert before[..since] == actions[..since];
      AfterSignal(todo, codes, processors, before, w, since);
      FlagStops(Exec(todo, codes, processors, before).value, actions[|actions| - 1], w);
      hide Act, StartsCommand, IsDeciding;
    }
  }

  /** No run goes on for ever, and a run that can go no further has finished. */
  lemma PoolCompletes(todo: seq<Job>, codes: nat -> int, processors: nat, actions: seq<Action>)
    requires Unmarked(todo)
    requires processors > 0 && Exec(todo, codes, processors, actions).Some?
    ensures |actions| <= MeasureAtStart(todo, processors)
    ensures (forall a :: Exec(todo, codes, processors, actions + [a]).None?) ==> Exec(todo, codes, processors, actions).value.main.Finished?
  {
    hide Exec, Act, Shape, Bounds, Conserved, JobsOk, Measure;
    RunInv(todo, codes, processors, actions);
    var s := Exec(todo, codes, processors, actions).value;
    if !s.main.Finished? {
      NeverStuck(s, todo);
      var a: Action :| !a.Interrupt? && Act(s, a).Some?;
      ExecStep(todo, codes, processors, actions, a);
    }
  }

  lemma {:induction false} AllGood(jobs: seq<Job>, ids: seq<nat>)
    requires forall i :: 0 <= i < |ids| ==> ids[i] < |jobs|
    ensures CountPassed(jobs, ids) + CountSkipped(jobs, ids) <= |ids|
    ensures CountPassed(jobs, ids) + CountSkipped(jobs, ids) == |ids| <==>
            forall i :: 0 <= i < |ids| ==> IsPassed(jobs[ids[i]]) || IsSkipped(jobs[ids[i]])
  {
    if ids != [] {
      var last := |ids| - 1;
      AllGood(jobs, ids[..last]);
      assert forall i :: 0 <= i < last ==> ids[i] == ids[..last][i];
    }
  }

  /** With every job collected, the status is 0 exactly when each was uninterrupted and either skipped or returned 0. */
  lemma StatusMeaning(s: State, todo: seq<Job>)
    requires Inv(s, todo) && |s.collected| == s.total
    requires forall id :: 0 <= id < s.total ==> id in s.collected
    ensures ExitStatus(s) == 0 <==>
            forall id :: 0 <= id < s.total ==> !s.jobs[id].isBreak && (todo[id].isSkip || s.codes(id) == 0)
  {
    hide Conserved, Bounds, WorkerOk, CountPassed, CountSkipped;
    AllGood(s.jobs, s.collected);
    forall id | 0 <= id < s.total
      ensures (IsPassed(s.jobs[id]) || IsSkipped(s.jobs[id])) <==> !s.jobs[id].isBreak && (todo[id].isSkip || s.codes(id) == 0)
    {
      assert id in s.collected;
      var i :| 0 <= i < |s.collected| && s.collected[i] == id;
      assert Done(s, s.collected[i]);
    }
    if forall id :: 0 <= id < s.total ==> IsPassed(s.jobs[id]) || IsSkipped(s.jobs[id]) {
    } else {
      var id :| 0 <= id < s.total && !(IsPassed(s.jobs[id]) || IsSkipped(s.jobs[id]));
      assert id in s.collected;
      var i :| 0 <= i < |s.collected| && s.collected[i] == id;
      assert !(IsPassed(s.jobs[s.collected[i]]) || IsSkipped(s.jobs[s.collected[i]]));
    }
  }

  /** When main has finished, all workers have exited, the queues are empty, every job was collected exactly once,
      and the status is 0 exactly when every job came back uninterrupted as PASS or SKIP. */
  lemma PoolOutcome(todo: seq<Job>, codes: nat -> int, processors: nat, actions: seq<Action>)
    requires Unmarked(todo)
    requires Exec(todo, codes, processors, actions).Some? && Exec(todo, codes, processors, actions).value.main.Finished?
    ensures var s := Exec(todo, codes, processors, actions).value;
            && s.input == [] && s.output == []
            && (forall w :: 0 <= w < processors ==> s.workers[w].Exited?)
            && |s.collected| == |todo| && (forall id :: 0 <= id < |todo| ==> Count(s.collected, id) == 1)
            && (forall id :: 0 <= id < |todo| ==> s.jobs[id].isSkip == todo[id].isSkip)
            && (ExitStatus(s) == 0 <==> forall id :: 0 <= id < |todo| ==>
                  !s.jobs[id].isBreak && (todo[id].isSkip || codes(id) == 0))
  {
    var s := Exec(todo, codes, processors, actions).value;
    RunInv(todo, codes, processors, actions);
    hide Exec, Act, Measure, WorkerOk, CountPassed, CountSkipped, Count;
    OutputDrained(s, todo);
    AllExited(s.workers);
    forall id | 0 <= id < |todo| ensures id in s.collected { CountMember(s.collected, id); }
    StatusMeaning(s, todo);
  }

  lemma {:induction false} AllExited(ws: seq<Worker>)
    requires forall w :: 0 <= w < |ws| ==> ws[w].Exited?
    ensures Busy(ws) == |ws|
  {
    if ws != [] { AllExited(ws[1..]); }
  }
}
