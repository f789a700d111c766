/** Whatever the workers' interleaving, the stores are those of a sequential ingest. */
module Serializability {
  import opened Options
  import opened IngestStores
  import opened Pool
  import opened PoolInvariant
  import Conservation

  // ----- The sequential ingest -----

  /** Complete attempts at `tasks`, one after the other. */
  function ProcessAll(embed: string -> Embedding, tasks: seq<Task>, s: Stores): Stores {
    if tasks == [] then s else ProcessAll(embed, tasks[1..], Process(embed, tasks[0], s))
  }

  /** The commits that a log records, made task by task in dispatch order. */
  function Replay(embed: string -> Embedding, log: seq<Entry>, s: Stores): Stores {
    if log == [] then s else Replay(embed, log[1..], Advance(embed, log[0].task, log[0].progress, s))
  }

  lemma {:induction false} ReplayAppend(embed: string -> Embedding, log: seq<Entry>, e: Entry, s: Stores)
    ensures Replay(embed, log + [e], s) == Advance(embed, e.task, e.progress, Replay(embed, log, s))
  {
    if log == [] {
      assert log + [e] == [e];
      assert [e][1..] == [];
    } else {
      assert (log + [e])[1..] == log[1..] + [e];
      ReplayAppend(embed, log[1..], e, Advance(embed, log[0].task, log[0].progress, s));
    }
  }

  /** Only tasks and progress matter to a replay. */
  lemma {:induction false} ReplayIgnoresOutcome(embed: string -> Embedding, log: seq<Entry>, n: nat, e: Entry,
                                                s: Stores)
    requires n < |log| && e.task == log[n].task && e.progress == log[n].progress
    ensures Replay(embed, log[n := e], s) == Replay(embed, log, s)
  {
    if n > 0 {
      assert log[n := e][1..] == log[1..][n - 1 := e];
      ReplayIgnoresOutcome(embed, log[1..], n - 1, e, Advance(embed, log[0].task, log[0].progress, s));
    } else {
      assert log[n := e][1..] == log[1..];
    }
  }

  /** Nothing that the log records stands in the way of an operation of `t`. */
  ghost predicate Passes(t: Task, log: seq<Entry>) {
    forall i :: 0 <= i < |log| && log[i].progress > 0 ==> Compatible(t, log[i].task)
  }

  lemma {:induction false} CommitPasses(embed: string -> Embedding, t: Task, k: nat, log: seq<Entry>, s: Stores)
    requires Passes(t, log)
    ensures Commit(embed, t, k, Replay(embed, log, s)) == Replay(embed, log, Commit(embed, t, k, s))
  {
    if log != [] {
      var e := log[0];
      CommitPasses(embed, t, k, log[1..], Advance(embed, e.task, e.progress, s));
      if e.progress > 0 {
        AdvanceCommutes(embed, t, k, e.task, e.progress, s);
      }
    }
  }

  lemma {:induction false} AdvancePasses(embed: string -> Embedding, t: Task, k: nat, log: seq<Entry>, s: Stores)
    requires Passes(t, log)
    ensures Advance(embed, t, k, Replay(embed, log, s)) == Replay(embed, log, Advance(embed, t, k, s))
  {
    if k > 0 {
      AdvancePasses(embed, t, k - 1, log, s);
      CommitPasses(embed, t, k - 1, log, Advance(embed, t, k - 1, s));
    }
  }

  /** One commit more in the middle of the log is that commit at its end. */
  lemma {:induction false} ReplayOneMore(embed: string -> Embedding, log: seq<Entry>, n: nat, s: Stores)
    requires n < |log| && Passes(log[n].task, log[n + 1..])
    ensures Replay(embed, log[n := log[n].(progress := log[n].progress + 1)], s) ==
            Commit(embed, log[n].task, log[n].progress, Replay(embed, log, s))
  {
    var more := log[n := log[n].(progress := log[n].progress + 1)];
    var t, k := log[0].task, log[0].progress;
    if n == 0 {
      assert more[1..] == log[1..];
      CommitPasses(embed, t, k, log[1..], Advance(embed, t, k, s));
    } else {
      assert log[1..][n..] == log[n + 1..];
      assert more[1..] == log[1..][n - 1 := more[n]];
      ReplayOneMore(embed, log[1..], n - 1, Advance(embed, t, k, s));
    }
  }

  // ----- Which tasks may run side by side -----

  /** Any two ingests in play may be reordered. */
  ghost predicate Consistent(universe: set<Task>) {
    forall t, u :: t in universe && u in universe && t.kind == u.kind == INGEST_CONTRACT ==> Compatible(t, u)
  }

  ghost predicate MayOverlap(e: Entry, f: Entry) {
    e.task.kind == f.task.kind == INGEST_CONTRACT ==> Compatible(e.task, f.task) || e.worker == f.worker
  }

  /** Two ingests that may not be reordered were pushed to the same worker's list. */
  ghost predicate Colocated(log: seq<Entry>) {
    forall m, n :: 0 <= m < n < |log| ==> MayOverlap(log[m], log[n])
  }

  lemma ConsistentIsColocated(log: seq<Entry>)
    requires Consistent(Elements(Logged(log)))
    ensures Colocated(log)
  {
    forall m, n | 0 <= m < n < |log| ensures MayOverlap(log[m], log[n]) {
      assert Logged(log)[m] in Elements(Logged(log)) && Logged(log)[n] in Elements(Logged(log));
    }
  }

  // ----- Logs only grow -----

  /** Entries keep their tasks and workers. */
  predicate Grows(a: seq<Entry>, b: seq<Entry>) {
    |a| <= |b| && forall n :: 0 <= n < |a| ==> b[n].task == a[n].task && b[n].worker == a[n].worker
  }

  lemma ColocatedBefore(a: seq<Entry>, b: seq<Entry>)
    requires Grows(a, b) && Colocated(b)
    ensures Colocated(a)
  {
    forall m, n | 0 <= m < n < |a| ensures MayOverlap(a[m], a[n]) {
      assert MayOverlap(b[m], b[n]);
    }
  }

  lemma {:induction false} EnqueueAllGrows(cfg: Config, tasks: seq<Task>, s: Pool)
    requires forall t :: t in tasks ==> Route(cfg, s.ring, t).Some?
    ensures Grows(s.log, EnqueueAll(cfg, tasks, s).log)
  {
    if tasks != [] { EnqueueAllGrows(cfg, tasks[1..], Enqueue(cfg, tasks[0], s)); }
  }

  lemma StepGrows(cfg: Config, step: Step, s: Pool)
    requires Enabled(cfg, step, s)
    ensures Grows(s.log, Next(cfg, step, s).log)
  {
    if step.DispatchMany? { EnqueueAllGrows(cfg, step.tasks, s); }
  }

  lemma {:induction false} RunGrows(cfg: Config, steps: seq<Step>, s: Pool)
    requires Legal(cfg, steps, s)
    ensures Grows(s.log, Run(cfg, steps, s).log)
  {
    if steps != [] {
      StepGrows(cfg, steps[0], s);
      RunGrows(cfg, steps[1..], Next(cfg, steps[0], s));
    }
  }

  // ----- The invariant: the stores are a replay of the log -----

  /** What is compared: the stores, and apart from the risk columns if something is being scored. */
  function Shown(scoring: bool, s: Stores): Stores {
    if scoring then EraseRisk(s) else s
  }

  ghost predicate Serial(cfg: Config, scoring: bool, base: Stores, s: Pool) {
    Inv(s) && Shown(scoring, s.stores) == Replay(cfg.embed, s.log, base)
  }

  /** What was routed to a worker after its running task still waits in its queue. */
  lemma LaterWaits(s: Pool, w: string, m: nat)
    requires Inv(s) && Holds(s, w) && At(s, w).hand.value < m < |s.log| && s.log[m].worker == w
    ensures s.log[m].progress == 0
  {
    assert WorkerOk(s.log, w, At(s, w));
    WorkerTickets(s.log, w, At(s, w));
    assert m !in At(s, w).popped;
  }

  /** A running task is compatible with the commits of the tasks dispatched after it: those that are
      not wait behind it in the same list. */
  lemma RunningPasses(s: Pool, w: string)
    requires Inv(s) && Colocated(s.log)
    requires Holds(s, w) && Commits(s.log[At(s, w).hand.value].task) > 0
    ensures var n := At(s, w).hand.value; Passes(s.log[n].task, s.log[n + 1..])
  {
    var n := At(s, w).hand.value;
    var t := s.log[n].task;
    assert WorkerOk(s.log, w, At(s, w));
    WorkerTickets(s.log, w, At(s, w));
    assert s.log[n].worker == w;
    forall m | n < m < |s.log| ensures s.log[m].progress > 0 ==> Compatible(t, s.log[m].task) {
      assert EntryOk(s.log[m]);
      assert MayOverlap(s.log[n], s.log[m]);
      if s.log[m].worker == w { LaterWaits(s, w, m); }
    }
    var later := s.log[n + 1..];
    forall i | 0 <= i < |later| && later[i].progress > 0 ensures Compatible(t, later[i].task) {
      assert later[i] == s.log[n + 1 + i];
    }
  }

  lemma EnqueueSerial(cfg: Config, scoring: bool, base: Stores, task: Task, s: Pool)
    requires Serial(cfg, scoring, base, s) && Route(cfg, s.ring, task).Some?
    ensures Serial(cfg, scoring, base, Enqueue(cfg, task, s))
  {
    EnqueueKeepsInv(cfg, task, s);
    ReplayAppend(cfg.embed, s.log, Entry(task, Route(cfg, s.ring, task).value, 0, Queued), base);
  }

  lemma {:induction false} EnqueueAllSerial(cfg: Config, scoring: bool, base: Stores, tasks: seq<Task>, s: Pool)
    requires Serial(cfg, scoring, base, s)
    requires forall t :: t in tasks ==> Route(cfg, s.ring, t).Some?
    ensures Serial(cfg, scoring, base, EnqueueAll(cfg, tasks, s))
  {
    if tasks != [] {
      EnqueueSerial(cfg, scoring, base, tasks[0], s);
      EnqueueAllSerial(cfg, scoring, base, tasks[1..], Enqueue(cfg, tasks[0], s));
    }
  }

  lemma FinishSerial(cfg: Config, scoring: bool, base: Stores, w: string, outcome: Outcome, s: Pool)
    requires Serial(cfg, scoring, base, s) && Holds(s, w)
    requires Inv(Finish(s, w, outcome))
    ensures Serial(cfg, scoring, base, Finish(s, w, outcome))
  {
    var n := At(s, w).hand.value;
    ReplayIgnoresOutcome(cfg.embed, s.log, n, s.log[n].(outcome := outcome), base);
  }

  lemma PopSerial(cfg: Config, scoring: bool, base: Stores, w: string, s: Pool)
    requires Serial(cfg, scoring, base, s) && Enabled(cfg, Pop(w), s)
    requires Inv(Next(cfg, Pop(w), s))
    ensures Serial(cfg, scoring, base, Next(cfg, Pop(w), s))
  {
    assert WorkerOk(s.log, w, At(s, w));
    WorkerTickets(s.log, w, At(s, w));
    var n := At(s, w).queue[0];
    ReplayIgnoresOutcome(cfg.embed, s.log, n, s.log[n].(outcome := Running), base);
  }

  lemma WriteReplays(cfg: Config, scoring: bool, base: Stores, w: string, s: Pool)
    requires Shown(scoring, s.stores) == Replay(cfg.embed, s.log, base) && Enabled(cfg, Write(w), s)
    requires var n := At(s, w).hand.value; Passes(s.log[n].task, s.log[n + 1..])
    ensures Shown(scoring, Next(cfg, Write(w), s).stores) == Replay(cfg.embed, Next(cfg, Write(w), s).log, base)
  {
    var n := At(s, w).hand.value;
    ReplayOneMore(cfg.embed, s.log, n, base);
    CommitErased(cfg.embed, s.log[n].task, s.log[n].progress, s.stores);
  }

  lemma WriteSerial(cfg: Config, scoring: bool, base: Stores, w: string, s: Pool)
    requires Serial(cfg, scoring, base, s) && Enabled(cfg, Write(w), s) && Colocated(s.log)
    requires Inv(Next(cfg, Write(w), s))
    ensures Serial(cfg, scoring, base, Next(cfg, Write(w), s))
  {
    RunningPasses(s, w);
    WriteReplays(cfg, scoring, base, w, s);
  }

  lemma ScoredErased(rows: map<Key, Row>, reading: Reading)
    ensures WithoutRisk(Scored(rows, reading)) == WithoutRisk(rows)
  {}

  lemma StepSerial(cfg: Config, scoring: bool, base: Stores, step: Step, s: Pool)
    requires Serial(cfg, scoring, base, s) && Enabled(cfg, step, s) && Colocated(s.log)
    requires step.WriteRisk? ==> scoring
    ensures Serial(cfg, scoring, base, Next(cfg, step, s))
  {
    StepKeepsInv(cfg, step, s);
    match step
    case Dispatch(t) => EnqueueSerial(cfg, scoring, base, t, s);
    case DispatchMany(ts) => EnqueueAllSerial(cfg, scoring, base, ts, s);
    case Pop(w) => PopSerial(cfg, scoring, base, w, s);
    case Write(w) => WriteSerial(cfg, scoring, base, w, s);
    case Return(w) => FinishSerial(cfg, scoring, base, w, Done, s);
    case Raise(w) => FinishSerial(cfg, scoring, base, w, Failed, s);
    case Crash(w) => if Holds(s, w) { FinishSerial(cfg, scoring, base, w, Lost, s); }
    case WriteRisk(r) => ScoredErased(s.stores.rows, s.readers[r]);
    case _ =>
  }

  /** Whether some scoring writes its level. */
  predicate Scores(steps: seq<Step>) {
    exists i :: 0 <= i < |steps| && steps[i].WriteRisk?
  }

  lemma {:induction false} RunSerial(cfg: Config, scoring: bool, base: Stores, steps: seq<Step>, s: Pool)
    requires Serial(cfg, scoring, base, s) && Legal(cfg, steps, s)
    requires Colocated(Run(cfg, steps, s).log) && (Scores(steps) ==> scoring)
    ensures Serial(cfg, scoring, base, Run(cfg, steps, s))
  {
    if steps != [] {
      RunGrows(cfg, steps, s);
      ColocatedBefore(s.log, Run(cfg, steps, s).log);
      StepSerial(cfg, scoring, base, steps[0], s);
      if Scores(steps[1..]) {
        var i :| 0 <= i < |steps[1..]| && steps[1..][i].WriteRisk?;
        assert steps[i + 1].WriteRisk?;
      }
      RunSerial(cfg, scoring, base, steps[1..], Next(cfg, steps[0], s));
    }
  }

  /** At every moment of every run, failures, crashes and ring changes included, the stores are those
      of the commits made so far, executed task by task in dispatch order, provided that two ingests
      that may not be reordered were pushed to the same list. A scoring shows in risk columns only. */
  lemma RunsAreSerializable(cfg: Config, steps: seq<Step>, ring: map<int, string>, stores: Stores)
    requires Legal(cfg, steps, Fresh(ring, stores)) && Colocated(Run(cfg, steps, Fresh(ring, stores)).log)
    ensures var s := Run(cfg, steps, Fresh(ring, stores));
            && Logged(s.log) == Dispatched(steps)
            && Shown(Scores(steps), s.stores) == Replay(cfg.embed, s.log, Shown(Scores(steps), stores))
  {
    FreshInv(ring, stores);
    RunSerial(cfg, Scores(steps), Shown(Scores(steps), stores), steps, Fresh(ring, stores));
    Conservation.RunLogs(cfg, steps, Fresh(ring, stores));
    assert Logged(Fresh(ring, stores).log) == [];
  }

  // ----- Runs in which every handler succeeds -----

  predicate Succeeds(steps: seq<Step>) {
    forall i :: 0 <= i < |steps| ==> !steps[i].Raise? && !steps[i].Crash?
  }

  ghost predicate Drained(s: Pool) {
    forall w :: At(s, w).queue == [] && At(s, w).hand == None
  }

  ghost predicate NoneAbandoned(s: Pool) {
    forall n :: 0 <= n < |s.log| ==> s.log[n].outcome !in {Failed, Lost}
  }

  lemma {:induction false} EnqueueAllAbandonsNone(cfg: Config, tasks: seq<Task>, s: Pool)
    requires forall t :: t in tasks ==> Route(cfg, s.ring, t).Some?
    requires NoneAbandoned(s)
    ensures NoneAbandoned(EnqueueAll(cfg, tasks, s))
  {
    if tasks != [] { EnqueueAllAbandonsNone(cfg, tasks[1..], Enqueue(cfg, tasks[0], s)); }
  }

  lemma {:induction false} SuccessAbandonsNone(cfg: Config, steps: seq<Step>, s: Pool)
    requires Succeeds(steps) && Legal(cfg, steps, s) && NoneAbandoned(s)
    ensures NoneAbandoned(Run(cfg, steps, s))
  {
    if steps != [] {
      if steps[0].DispatchMany? { EnqueueAllAbandonsNone(cfg, steps[0].tasks, s); }
      assert !steps[0].Raise? && !steps[0].Crash?;
      assert NoneAbandoned(Next(cfg, steps[0], s));
      SuccessAbandonsNone(cfg, steps[1..], Next(cfg, steps[0], s));
    }
  }

  lemma {:induction false} CompleteReplay(embed: string -> Embedding, log: seq<Entry>, s: Stores)
    requires forall n :: 0 <= n < |log| ==> log[n].progress == Commits(log[n].task)
    ensures Replay(embed, log, s) == ProcessAll(embed, Logged(log), s)
  {
    if log != [] {
      assert Logged(log)[1..] == Logged(log[1..]);
      CompleteReplay(embed, log[1..], Process(embed, log[0].task, s));
    }
  }

  /** Every interleaving that drains the queues, with no failure, leaves exactly the stores of
      processing the tasks one by one in dispatch order. */
  lemma SerialEquivalence(cfg: Config, steps: seq<Step>, ring: map<int, string>, stores: Stores)
    requires Legal(cfg, steps, Fresh(ring, stores)) && Colocated(Run(cfg, steps, Fresh(ring, stores)).log)
    requires Succeeds(steps) && Drained(Run(cfg, steps, Fresh(ring, stores)))
    ensures Shown(Scores(steps), Run(cfg, steps, Fresh(ring, stores)).stores) ==
            ProcessAll(cfg.embed, Dispatched(steps), Shown(Scores(steps), stores))
  {
    RunsAreSerializable(cfg, steps, ring, stores);
    AllComplete(cfg, steps, ring, stores);
    CompleteReplay(cfg.embed, Run(cfg, steps, Fresh(ring, stores)).log, Shown(Scores(steps), stores));
  }

  /** Once the queues are drained without a failure, every attempt is complete. */
  lemma AllComplete(cfg: Config, steps: seq<Step>, ring: map<int, string>, stores: Stores)
    requires Legal(cfg, steps, Fresh(ring, stores))
    requires Succeeds(steps) && Drained(Run(cfg, steps, Fresh(ring, stores)))
    ensures var log := Run(cfg, steps, Fresh(ring, stores)).log;
            forall n :: 0 <= n < |log| ==> log[n].outcome == Done && log[n].progress == Commits(log[n].task)
  {
    var s := Run(cfg, steps, Fresh(ring, stores));
    FreshInv(ring, stores);
    RunKeepsInv(cfg, steps, Fresh(ring, stores));
    SuccessAbandonsNone(cfg, steps, Fresh(ring, stores));
    forall n | 0 <= n < |s.log| ensures s.log[n].outcome == Done && s.log[n].progress == Commits(s.log[n].task) {
      Conservation.OnePlace(s, n);
      assert At(s, s.log[n].worker).queue == [] && At(s, s.log[n].worker).hand == None;
      assert EntryOk(s.log[n]);
    }
  }
}
