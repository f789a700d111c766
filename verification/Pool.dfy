/** The ingest pool as a system of atomic steps: dispatching, popping, each separate commit of a
    handler, failures, crashes, ring refreshes, and the two transactions of a risk scoring.
    Any interleaving of enabled steps is a run. */
module Pool {
  import opened Options
  import opened LexicalOrder
  import opened HashRing
  import opened IngestStores
  import opened RiskHeuristic
  import opened Dispatcher

  /** What a run takes from elsewhere: the digest, the ring that a refresh installs for a scan, the
      embedding model, the case mapping. */
  datatype Config = Config(
    hash: string -> int,
    ringOf: seq<string> -> map<int, string>,
    embed: string -> Embedding,
    lower: string -> string)

  /** The registry's refresh: a rebuild from the sorted scan. */
  ghost predicate RebuildsSorted(cfg: Config, virtualNodes: int) {
    forall scan :: cfg.ringOf(scan) == RebuiltSorted(LayoutOf(cfg.hash, virtualNodes), scan)
  }

  /** The configuration of the code. */
  function CodeConfig(hash: string -> int, virtualNodes: int, embed: string -> Embedding,
                      lower: string -> string): Config {
    Config(hash, Refreshed(LayoutOf(hash, virtualNodes)), embed, lower)
  }

  function Refreshed(layout: Layout): seq<string> -> map<int, string> {
    scan => RebuiltSorted(layout, scan)
  }

  function RebuiltSorted(layout: Layout, scan: seq<string>): map<int, string> {
    Rebuilt(layout, Sort(scan))
  }

  lemma CodeRebuildsSorted(hash: string -> int, virtualNodes: int, embed: string -> Embedding, lower: string -> string)
    ensures RebuildsSorted(CodeConfig(hash, virtualNodes, embed, lower), virtualNodes)
  {
    var cfg := CodeConfig(hash, virtualNodes, embed, lower);
    forall scan ensures cfg.ringOf(scan) == RebuiltSorted(LayoutOf(cfg.hash, virtualNodes), scan) {}
  }

  datatype Outcome = Queued | Running | Done | Failed | Lost

  /** A dispatched task, the queue it was pushed to, the commits made for it and what became of it. */
  datatype Entry = Entry(task: Task, worker: string, progress: nat, outcome: Outcome)

  /** A worker's list in Redis, the task it is handling, and what it has popped so far.
      Tasks are denoted by tickets, their positions in the dispatch log. */
  datatype Worker = Worker(queue: seq<nat>, hand: Option<nat>, crashed: bool, popped: seq<nat>)

  /** A scoring between its SELECT and its UPDATE. */
  datatype Reading = Reading(clauseId: string, level: Level)

  datatype Pool = Pool(
    ring: map<int, string>,
    workers: map<string, Worker>,
    readers: map<nat, Reading>,
    stores: Stores,
    log: seq<Entry>)

  datatype Step =
    | Dispatch(task: Task)
    | DispatchMany(tasks: seq<Task>)
    | Pop(worker: string)
    | Write(worker: string)
    | Return(worker: string)
    | Raise(worker: string)
    | Crash(worker: string)
    | Refresh(scan: seq<string>)
    | ReadRisk(reader: nat, key: Key)
    | WriteRisk(reader: nat)

  function At(s: Pool, worker: string): Worker {
    if worker in s.workers then s.workers[worker] else Worker([], None, false, [])
  }

  ghost function Route(cfg: Config, ring: map<int, string>, task: Task): Option<string> {
    RouteOf(cfg.hash, ring, task.routingKey)
  }

  ghost predicate Enabled(cfg: Config, step: Step, s: Pool) {
    match step
    case Dispatch(t) => Route(cfg, s.ring, t).Some?
    case DispatchMany(ts) => forall t :: t in ts ==> Route(cfg, s.ring, t).Some?
    case Pop(w) => var x := At(s, w); !x.crashed && x.hand == None && x.queue != []
    case Write(w) => Holds(s, w) && s.log[At(s, w).hand.value].progress < Commits(s.log[At(s, w).hand.value].task)
    case Return(w) => Holds(s, w) && s.log[At(s, w).hand.value].progress == Commits(s.log[At(s, w).hand.value].task)
    case Raise(w) => Holds(s, w)
    case Crash(w) => !At(s, w).crashed
    case Refresh(_) => true
    case ReadRisk(_, key) => key in s.stores.rows
    case WriteRisk(r) => r in s.readers
  }

  predicate Holds(s: Pool, w: string) {
    var hand := At(s, w).hand;
    hand.Some? && hand.value < |s.log|
  }

  ghost function Enqueue(cfg: Config, task: Task, s: Pool): Pool
    requires Route(cfg, s.ring, task).Some?
  {
    var w := Route(cfg, s.ring, task).value;
    var x := At(s, w);
    s.(log := s.log + [Entry(task, w, 0, Queued)],
       workers := s.workers[w := x.(queue := x.queue + [|s.log|])])
  }

  ghost function EnqueueAll(cfg: Config, tasks: seq<Task>, s: Pool): Pool
    requires forall t :: t in tasks ==> Route(cfg, s.ring, t).Some?
  {
    if tasks == [] then s else EnqueueAll(cfg, tasks[1..], Enqueue(cfg, tasks[0], s))
  }

  /** The handler of `w` ends, and its task gets an outcome; a lost one ends the worker too. */
  function Finish(s: Pool, w: string, outcome: Outcome): Pool
    requires Holds(s, w)
  {
    var x := At(s, w);
    var n := x.hand.value;
    s.(log := s.log[n := s.log[n].(outcome := outcome)],
       workers := s.workers[w := x.(hand := None, crashed := outcome == Lost)])
  }

  function Scored(rows: map<Key, Row>, reading: Reading): map<Key, Row> {
    map key | key in rows :: if key.1 == reading.clauseId then rows[key].(risk := Some(reading.level)) else rows[key]
  }

  ghost function Next(cfg: Config, step: Step, s: Pool): Pool
    requires Enabled(cfg, step, s)
  {
    match step
    case Dispatch(t) => Enqueue(cfg, t, s)
    case DispatchMany(ts) => EnqueueAll(cfg, ts, s)
    case Pop(w) =>
      var x := At(s, w);
      var n := x.queue[0];
      s.(log := if n < |s.log| then s.log[n := s.log[n].(outcome := Running)] else s.log,
         workers := s.workers[w := Worker(x.queue[1..], Some(n), false, x.popped + [n])])
    case Write(w) =>
      var n := At(s, w).hand.value;
      var e := s.log[n];
      s.(log := s.log[n := e.(progress := e.progress + 1)], stores := Commit(cfg.embed, e.task, e.progress, s.stores))
    case Return(w) => Finish(s, w, Done)
    case Raise(w) => Finish(s, w, Failed)
    case Crash(w) =>
      if Holds(s, w) then Finish(s, w, Lost)
      else s.(workers := s.workers[w := At(s, w).(crashed := true)])
    case Refresh(scan) => s.(ring := cfg.ringOf(scan))
    case ReadRisk(r, key) =>
      s.(readers := s.readers[r := Reading(key.1, Assess(cfg.lower, s.stores.rows[key].text))])
    case WriteRisk(r) =>
      s.(readers := s.readers - {r}, stores := s.stores.(rows := Scored(s.stores.rows, s.readers[r])))
  }

  ghost predicate Legal(cfg: Config, steps: seq<Step>, s: Pool) {
    steps == [] || (Enabled(cfg, steps[0], s) && Legal(cfg, steps[1..], Next(cfg, steps[0], s)))
  }

  ghost function Run(cfg: Config, steps: seq<Step>, s: Pool): Pool
    requires Legal(cfg, steps, s)
  {
    if steps == [] then s else Run(cfg, steps[1..], Next(cfg, steps[0], s))
  }

  /** The pool before the first dispatch. */
  function Fresh(ring: map<int, string>, stores: Stores): Pool {
    Pool(ring, map[], map[], stores, [])
  }

  // ----- What is dispatched -----

  function TasksOf(step: Step): seq<Task> {
    match step
    case Dispatch(t) => [t]
    case DispatchMany(ts) => ts
    case _ => []
  }

  /** The tasks of a run in dispatch order. */
  function Dispatched(steps: seq<Step>): seq<Task> {
    if steps == [] then [] else TasksOf(steps[0]) + Dispatched(steps[1..])
  }

  function Logged(log: seq<Entry>): seq<Task> {
    seq(|log|, i requires 0 <= i < |log| => log[i].task)
  }

  /** The tickets routed to `worker`, in dispatch order. */
  function Routed(log: seq<Entry>, worker: string): seq<nat> {
    if log == [] then []
    else
      var n := |log| - 1;
      Routed(log[..n], worker) + if log[n].worker == worker then [n] else []
  }

  lemma {:induction false} RoutedTickets(log: seq<Entry>, worker: string)
    ensures forall i :: 0 <= i < |Routed(log, worker)| ==>
              Routed(log, worker)[i] < |log| && log[Routed(log, worker)[i]].worker == worker
    ensures forall i, j :: 0 <= i < j < |Routed(log, worker)| ==> Routed(log, worker)[i] < Routed(log, worker)[j]
  {
    if log != [] {
      var before := Routed(log[..|log| - 1], worker);
      RoutedTickets(log[..|log| - 1], worker);
      assert forall i :: 0 <= i < |before| ==> before[i] < |log| - 1 && log[before[i]].worker == worker;
    }
  }

  lemma {:induction false} RoutedAll(log: seq<Entry>, worker: string, n: nat)
    requires n < |log| && log[n].worker == worker
    ensures n in Routed(log, worker)
  {
    if n < |log| - 1 { RoutedAll(log[..|log| - 1], worker, n); }
  }

  lemma {:induction false} RoutedUnchanged(log: seq<Entry>, n: nat, e: Entry, worker: string)
    requires n < |log| && e.worker == log[n].worker
    ensures Routed(log[n := e], worker) == Routed(log, worker)
  {
    var m := |log| - 1;
    if n < m {
      assert log[n := e][..m] == log[..m][n := e];
      RoutedUnchanged(log[..m], n, e, worker);
    } else {
      assert log[n := e][..m] == log[..m];
    }
  }

  lemma RoutedGrows(log: seq<Entry>, e: Entry, worker: string)
    ensures Routed(log + [e], worker) == Routed(log, worker) + if e.worker == worker then [|log|] else []
  {
    assert (log + [e])[..|log|] == log;
  }
}
