/** The pool always comes to rest: how much work a run can do, and that living workers can do it all. */
module Drain {
  import opened Options
  import opened IngestStores
  import opened Pool
  import opened PoolInvariant
  import opened Refinement
  import opened Serializability

  // ----- A measure of the work left -----

  /** The pops, commits and endings that an entry can still cause. */
  function StepsLeft(e: Entry): nat {
    match e.outcome
    case Queued => 2 + Commits(e.task)
    case Running => 1 + if e.progress <= Commits(e.task) then Commits(e.task) - e.progress else 0
    case _ => 0
  }

  function WorkLeft(log: seq<Entry>): nat {
    if log == [] then 0 else WorkLeft(log[..|log| - 1]) + StepsLeft(log[|log| - 1])
  }

  function WorkOf(tasks: seq<Task>): nat {
    if tasks == [] then 0 else 2 + Commits(tasks[0]) + WorkOf(tasks[1..])
  }

  predicate IsWork(step: Step) {
    step.Pop? || step.Write? || step.Return? || step.Raise?
  }

  function WorkSteps(steps: seq<Step>): nat {
    if steps == [] then 0 else (if IsWork(steps[0]) then 1 else 0) + WorkSteps(steps[1..])
  }

  lemma {:induction false} WorkLeftUpdated(log: seq<Entry>, n: nat, e: Entry)
    requires n < |log|
    ensures WorkLeft(log[n := e]) + StepsLeft(log[n]) == WorkLeft(log) + StepsLeft(e)
  {
    var m := |log| - 1;
    if n < m {
      assert log[n := e][..m] == log[..m][n := e];
      WorkLeftUpdated(log[..m], n, e);
    } else {
      assert log[n := e][..m] == log[..m];
    }
  }

  lemma WorkLeftGrows(log: seq<Entry>, e: Entry)
    ensures WorkLeft(log + [e]) == WorkLeft(log) + StepsLeft(e)
  {
    assert (log + [e])[..|log|] == log;
  }

  lemma {:induction false} EnqueueAllWork(cfg: Config, tasks: seq<Task>, s: Pool)
    requires forall t :: t in tasks ==> Route(cfg, s.ring, t).Some?
    ensures WorkLeft(EnqueueAll(cfg, tasks, s).log) == WorkLeft(s.log) + WorkOf(tasks)
  {
    if tasks != [] {
      WorkLeftGrows(s.log, Entry(tasks[0], Route(cfg, s.ring, tasks[0]).value, 0, Queued));
      EnqueueAllWork(cfg, tasks[1..], Enqueue(cfg, tasks[0], s));
    }
  }

  /** A working step uses up some of the work left; only a dispatch adds to it. */
  lemma StepWork(cfg: Config, step: Step, s: Pool)
    requires Inv(s) && Enabled(cfg, step, s)
    ensures WorkLeft(Next(cfg, step, s).log) + (if IsWork(step) then 1 else 0) <=
            WorkLeft(s.log) + WorkOf(TasksOf(step))
  {
    match step
    case Dispatch(t) => EnqueueAllWork(cfg, [t], s);
    case DispatchMany(ts) => EnqueueAllWork(cfg, ts, s);
    case Pop(w) => PopWork(cfg, w, s);
    case Write(w) => WriteWork(cfg, w, s);
    case Return(w) => FinishWork(s, w, Done);
    case Raise(w) => FinishWork(s, w, Failed);
    case Crash(w) => if Holds(s, w) { FinishWork(s, w, Lost); }
    case _ =>
  }

  lemma PopWork(cfg: Config, w: string, s: Pool)
    requires Inv(s) && Enabled(cfg, Pop(w), s)
    ensures WorkLeft(Next(cfg, Pop(w), s).log) + 1 == WorkLeft(s.log)
  {
    assert WorkerOk(s.log, w, At(s, w));
    WorkerTickets(s.log, w, At(s, w));
    var n := At(s, w).queue[0];
    WorkLeftUpdated(s.log, n, s.log[n].(outcome := Running));
  }

  lemma WriteWork(cfg: Config, w: string, s: Pool)
    requires Inv(s) && Enabled(cfg, Write(w), s)
    ensures WorkLeft(Next(cfg, Write(w), s).log) + 1 == WorkLeft(s.log)
  {
    var n := At(s, w).hand.value;
    RunningInHand(s, w);
    WorkLeftUpdated(s.log, n, s.log[n].(progress := s.log[n].progress + 1));
  }

  lemma RunningInHand(s: Pool, w: string)
    requires Inv(s) && Holds(s, w)
    ensures s.log[At(s, w).hand.value].outcome == Running
    ensures s.log[At(s, w).hand.value].progress <= Commits(s.log[At(s, w).hand.value].task)
  {
    assert WorkerOk(s.log, w, At(s, w));
    assert EntryOk(s.log[At(s, w).hand.value]);
  }

  lemma FinishWork(s: Pool, w: string, outcome: Outcome)
    requires Inv(s) && Holds(s, w) && Resolved(outcome)
    ensures WorkLeft(Finish(s, w, outcome).log) + 1 <= WorkLeft(s.log)
  {
    var n := At(s, w).hand.value;
    RunningInHand(s, w);
    WorkLeftUpdated(s.log, n, s.log[n].(outcome := outcome));
  }

  lemma {:induction false} WorkOfAppend(a: seq<Task>, b: seq<Task>)
    ensures WorkOf(a + b) == WorkOf(a) + WorkOf(b)
  {
    if a == [] {
      assert a + b == b;
    } else {
      assert (a + b)[1..] == a[1..] + b;
      WorkOfAppend(a[1..], b);
    }
  }

  /** No run works forever: its pops, commits and endings, with those still to come, are at most two
      and the number of commits for each task dispatched. */
  lemma {:induction false} WorkIsBounded(cfg: Config, steps: seq<Step>, s: Pool)
    requires Inv(s) && Legal(cfg, steps, s)
    ensures WorkSteps(steps) + WorkLeft(Run(cfg, steps, s).log) <= WorkLeft(s.log) + WorkOf(Dispatched(steps))
  {
    if steps != [] {
      StepWork(cfg, steps[0], s);
      StepKeepsInv(cfg, steps[0], s);
      WorkIsBounded(cfg, steps[1..], Next(cfg, steps[0], s));
      WorkOfAppend(TasksOf(steps[0]), Dispatched(steps[1..]));
    }
  }

  // ----- Draining -----

  ghost predicate NoneCrashed(s: Pool) {
    forall w :: !At(s, w).crashed
  }

  /** The next thing that a busy worker can do without failing. */
  function NextWork(s: Pool, w: string): Step {
    if !Holds(s, w) then Pop(w)
    else if s.log[At(s, w).hand.value].progress < Commits(s.log[At(s, w).hand.value].task) then Write(w)
    else Return(w)
  }

  lemma NextWorkEnabled(cfg: Config, w: string, s: Pool)
    requires Inv(s) && !At(s, w).crashed && (At(s, w).queue != [] || At(s, w).hand != None)
    ensures Enabled(cfg, NextWork(s, w), s) && TasksOf(NextWork(s, w)) == []
  {
    assert WorkerOk(s.log, w, At(s, w));
    WorkerTickets(s.log, w, At(s, w));
    if Holds(s, w) { RunningInHand(s, w); }
  }

  lemma NextWorkCrashesNone(cfg: Config, w: string, s: Pool)
    requires NoneCrashed(s) && Enabled(cfg, NextWork(s, w), s)
    ensures NoneCrashed(Next(cfg, NextWork(s, w), s))
  {
    forall v ensures !At(Next(cfg, NextWork(s, w), s), v).crashed {
      assert !At(s, v).crashed;
    }
  }

  lemma NextWorkHelps(cfg: Config, w: string, s: Pool)
    requires Inv(s) && NoneCrashed(s) && (At(s, w).queue != [] || At(s, w).hand != None)
    ensures Enabled(cfg, NextWork(s, w), s)
    ensures var next := Next(cfg, NextWork(s, w), s);
            Inv(next) && NoneCrashed(next) && WorkLeft(next.log) < WorkLeft(s.log)
  {
    NextWorkEnabled(cfg, w, s);
    NextWorkCrashesNone(cfg, w, s);
    StepWork(cfg, NextWork(s, w), s);
    StepKeepsInv(cfg, NextWork(s, w), s);
  }

  lemma BusyWorker(s: Pool) returns (w: string)
    requires !Drained(s)
    ensures At(s, w).queue != [] || At(s, w).hand != None
  {
    w :| At(s, w).queue != [] || At(s, w).hand != None;
  }

  ghost predicate Drains(cfg: Config, work: seq<Step>, s: Pool) {
    Works(work) && Legal(cfg, work, s) && Drained(Run(cfg, work, s))
  }

  lemma DrainsFrom(cfg: Config, step: Step, rest: seq<Step>, s: Pool)
    requires step.Pop? || step.Write? || step.Return?
    requires Enabled(cfg, step, s) && Drains(cfg, rest, Next(cfg, step, s))
    ensures Drains(cfg, [step] + rest, s)
  {
    Prepend(cfg, step, rest, s);
  }

  /** While no worker has crashed, the workers can always drain the pool, none failing. */
  lemma {:induction false} CanDrain(cfg: Config, s: Pool) returns (work: seq<Step>)
    requires Inv(s) && NoneCrashed(s)
    ensures Drains(cfg, work, s)
    decreases WorkLeft(s.log)
  {
    if Drained(s) {
      work := [];
    } else {
      var w := BusyWorker(s);
      NextWorkHelps(cfg, w, s);
      var rest := CanDrain(cfg, Next(cfg, NextWork(s, w), s));
      DrainsFrom(cfg, NextWork(s, w), rest, s);
      work := [NextWork(s, w)] + rest;
    }
  }

  /** Every run in which no worker crashed goes on to one that ends drained. */
  lemma RunsCanDrain(cfg: Config, steps: seq<Step>, ring: map<int, string>, stores: Stores) returns (work: seq<Step>)
    requires Legal(cfg, steps, Fresh(ring, stores)) && NoneCrashed(Run(cfg, steps, Fresh(ring, stores)))
    ensures Works(work) && Legal(cfg, steps + work, Fresh(ring, stores))
    ensures Drained(Run(cfg, steps + work, Fresh(ring, stores)))
  {
    FreshInv(ring, stores);
    RunKeepsInv(cfg, steps, Fresh(ring, stores));
    work := CanDrain(cfg, Run(cfg, steps, Fresh(ring, stores)));
    RunAppend(cfg, steps, work, Fresh(ring, stores));
  }
}
