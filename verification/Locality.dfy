/** Per-contract locality: which changes of membership keep the tasks of a contract on one list. */
module Locality {
  import opened Options
  import opened HashRing
  import opened IngestStores
  import opened Pool
  import opened Rebalancing
  import opened Serializability
  import Conservation

  /** A clause id of a contract starts with the contract's id, which has 16 characters. */
  predicate OwnedBy(id: string, contractId: string) {
    |contractId| == 16 && |id| >= 16 && id[..16] == contractId
  }

  /** An ingest task as the driver makes it from a parsed contract. */
  ghost predicate Shaped(t: Task) {
    t.kind == INGEST_CONTRACT ==>
      t.routingKey == t.contractId && forall id :: Occurs(t.clauses, id) ==> OwnedBy(id, t.contractId)
  }

  /** Tasks of different contracts may be reordered. */
  lemma DifferentContracts(t: Task, u: Task)
    requires Shaped(t) && Shaped(u) && t.kind == u.kind == INGEST_CONTRACT && t.contractId != u.contractId
    ensures Compatible(t, u)
  {
    forall id | Occurs(t.clauses, id) ensures !Occurs(u.clauses, id) {
      assert OwnedBy(id, t.contractId);
    }
  }

  // ----- The scan in force at each dispatch -----

  function ScanAfterStep(step: Step, scan: seq<string>): seq<string> {
    if step.Refresh? then step.scan else scan
  }

  function RingAfterStep(cfg: Config, step: Step, ring: map<int, string>): map<int, string> {
    if step.Refresh? then cfg.ringOf(step.scan) else ring
  }

  /** The ring that routed dispatch number `k` of a run. */
  function RingAt(cfg: Config, steps: seq<Step>, ring: map<int, string>, k: nat): map<int, string> {
    if steps == [] || k < |TasksOf(steps[0])| then ring
    else RingAt(cfg, steps[1..], RingAfterStep(cfg, steps[0], ring), k - |TasksOf(steps[0])|)
  }

  /** The scan that the ring had last been rebuilt from when dispatch number `k` of a run was made. */
  function ScanAt(steps: seq<Step>, scan: seq<string>, k: nat): seq<string> {
    if steps == [] || k < |TasksOf(steps[0])| then scan
    else ScanAt(steps[1..], ScanAfterStep(steps[0], scan), k - |TasksOf(steps[0])|)
  }

  lemma {:induction false} RingOfScan(cfg: Config, steps: seq<Step>, scan: seq<string>, k: nat)
    ensures RingAt(cfg, steps, cfg.ringOf(scan), k) == cfg.ringOf(ScanAt(steps, scan, k))
  {
    if steps != [] && k >= |TasksOf(steps[0])| {
      RingOfScan(cfg, steps[1..], ScanAfterStep(steps[0], scan), k - |TasksOf(steps[0])|);
    }
  }

  ghost predicate RoutedBy(cfg: Config, ring: map<int, string>, e: Entry) {
    Owner(ring, cfg.hash(e.task.routingKey)) == Some(e.worker) && e.worker != ""
  }

  lemma {:induction false} EnqueueAllRouted(cfg: Config, tasks: seq<Task>, s: Pool, k: nat)
    requires forall t :: t in tasks ==> Route(cfg, s.ring, t).Some?
    requires k < |tasks|
    ensures |EnqueueAll(cfg, tasks, s).log| == |s.log| + |tasks|
    ensures RoutedBy(cfg, s.ring, EnqueueAll(cfg, tasks, s).log[|s.log| + k])
  {
    var next := Enqueue(cfg, tasks[0], s);
    EnqueueAllGrows(cfg, tasks[1..], next);
    if |tasks| > 1 {
      EnqueueAllRouted(cfg, tasks[1..], next, if k > 0 then k - 1 else 0);
    }
  }

  lemma StepRouted(cfg: Config, step: Step, s: Pool, k: nat)
    requires Enabled(cfg, step, s) && k < |TasksOf(step)|
    ensures |Next(cfg, step, s).log| == |s.log| + |TasksOf(step)|
    ensures RoutedBy(cfg, s.ring, Next(cfg, step, s).log[|s.log| + k])
  {
    if step.DispatchMany? { EnqueueAllRouted(cfg, step.tasks, s, k); }
  }

  lemma StepRings(cfg: Config, step: Step, s: Pool)
    requires Enabled(cfg, step, s)
    ensures Next(cfg, step, s).ring == RingAfterStep(cfg, step, s.ring)
    ensures |Next(cfg, step, s).log| == |s.log| + |TasksOf(step)|
  {
    Conservation.StepLogs(cfg, step, s);
    assert |Logged(Next(cfg, step, s).log)| == |Logged(s.log)| + |TasksOf(step)|;
    if step.DispatchMany? { Conservation.EnqueueAllLogs(cfg, step.tasks, s); }
  }

  lemma StaysRouted(cfg: Config, steps: seq<Step>, ring: map<int, string>, s: Pool, i: nat)
    requires Legal(cfg, steps, s) && i < |s.log| && RoutedBy(cfg, ring, s.log[i])
    ensures i < |Run(cfg, steps, s).log| && RoutedBy(cfg, ring, Run(cfg, steps, s).log[i])
  {
    RunGrows(cfg, steps, s);
  }

  /** The entry of dispatch number `k` of a run was routed by the ring of that moment. */
  ghost predicate DispatchRouted(cfg: Config, steps: seq<Step>, s: Pool, d: Pool, k: nat) {
    |s.log| + k < |d.log| ==> RoutedBy(cfg, RingAt(cfg, steps, s.ring, k), d.log[|s.log| + k])
  }

  /** Each task went to the list of the worker that the ring of its dispatch gave it. */
  lemma {:induction false} RunRouted(cfg: Config, steps: seq<Step>, s: Pool, k: nat)
    requires Legal(cfg, steps, s)
    ensures DispatchRouted(cfg, steps, s, Run(cfg, steps, s), k)
  {
    if steps != [] {
      var next := Next(cfg, steps[0], s);
      if k < |TasksOf(steps[0])| {
        StepRouted(cfg, steps[0], s, k);
        StaysRouted(cfg, steps[1..], s.ring, next, |s.log| + k);
      } else {
        RunRouted(cfg, steps[1..], next, k - |TasksOf(steps[0])|);
        RoutedLater(cfg, steps, s, Run(cfg, steps[1..], next), k);
      }
    }
  }

  lemma RoutedLater(cfg: Config, steps: seq<Step>, s: Pool, d: Pool, k: nat)
    requires steps != [] && Enabled(cfg, steps[0], s) && k >= |TasksOf(steps[0])|
    requires DispatchRouted(cfg, steps[1..], Next(cfg, steps[0], s), d, k - |TasksOf(steps[0])|)
    ensures DispatchRouted(cfg, steps, s, d, k)
  {
    StepRings(cfg, steps[0], s);
  }

  // ----- What keeps a contract in place -----

  ghost predicate StaysFor(e: Entry, scan: seq<string>, f: Entry, later: seq<string>) {
    Compatible(e.task, f.task) || (e.worker in later && f.worker in scan)
  }

  /** Of any two ingests that may not be reordered, the first one's worker is still a member when the
      second is dispatched, and the second one's was a member already when the first was. */
  ghost predicate OwnersStay(steps: seq<Step>, scan: seq<string>, log: seq<Entry>) {
    forall m, n :: 0 <= m < n < |log| && log[m].task.kind == log[n].task.kind == INGEST_CONTRACT ==>
      StaysFor(log[m], ScanAt(steps, scan, m), log[n], ScanAt(steps, scan, n))
  }

  lemma LoggedWereDispatched(cfg: Config, steps: seq<Step>, ring: map<int, string>, stores: Stores, n: nat)
    requires Legal(cfg, steps, Fresh(ring, stores)) && n < |Run(cfg, steps, Fresh(ring, stores)).log|
    ensures n < |Dispatched(steps)| && Run(cfg, steps, Fresh(ring, stores)).log[n].task in Dispatched(steps)
  {
    Conservation.RunLogs(cfg, steps, Fresh(ring, stores));
    assert Logged(Fresh(ring, stores).log) == [];
    var log := Run(cfg, steps, Fresh(ring, stores)).log;
    assert Logged(log) == Dispatched(steps);
    assert Logged(log)[n] == log[n].task;
  }

  lemma RoutedAsDispatched(cfg: Config, steps: seq<Step>, scan: seq<string>, stores: Stores, n: nat)
    requires Legal(cfg, steps, Fresh(cfg.ringOf(scan), stores))
    requires n < |Run(cfg, steps, Fresh(cfg.ringOf(scan), stores)).log|
    ensures RoutedBy(cfg, cfg.ringOf(ScanAt(steps, scan, n)), Run(cfg, steps, Fresh(cfg.ringOf(scan), stores)).log[n])
  {
    RunRouted(cfg, steps, Fresh(cfg.ringOf(scan), stores), n);
    RingOfScan(cfg, steps, scan, n);
  }

  /** Minimal disruption at work: whoever else joins or leaves between two tasks of a contract, they
      share a list if the owner of the first stays and that of the second is no newcomer. */
  lemma StayingOwnersColocate(cfg: Config, virtualNodes: int, steps: seq<Step>, scan: seq<string>, stores: Stores)
    requires RebuildsSorted(cfg, virtualNodes)
    requires Legal(cfg, steps, Fresh(cfg.ringOf(scan), stores))
    requires forall t :: t in Dispatched(steps) ==> Shaped(t)
    requires OwnersStay(steps, scan, Run(cfg, steps, Fresh(cfg.ringOf(scan), stores)).log)
    ensures Colocated(Run(cfg, steps, Fresh(cfg.ringOf(scan), stores)).log)
  {
    var log := Run(cfg, steps, Fresh(cfg.ringOf(scan), stores)).log;
    forall n | 0 <= n < |log| ensures Shaped(log[n].task) && RoutedBy(cfg, cfg.ringOf(ScanAt(steps, scan, n)), log[n]) {
      LoggedWereDispatched(cfg, steps, cfg.ringOf(scan), stores, n);
      RoutedAsDispatched(cfg, steps, scan, stores, n);
    }
    ListsShared(cfg, virtualNodes, steps, scan, log);
  }

  lemma ListsShared(cfg: Config, virtualNodes: int, steps: seq<Step>, scan: seq<string>, log: seq<Entry>)
    requires RebuildsSorted(cfg, virtualNodes)
    requires forall n :: 0 <= n < |log| ==>
               Shaped(log[n].task) && RoutedBy(cfg, cfg.ringOf(ScanAt(steps, scan, n)), log[n])
    requires OwnersStay(steps, scan, log)
    ensures Colocated(log)
  {
    forall m, n | 0 <= m < n < |log| ensures MayOverlap(log[m], log[n]) {
      if log[m].task.kind == log[n].task.kind == INGEST_CONTRACT {
        SameList(cfg, virtualNodes, log[m], ScanAt(steps, scan, m), log[n], ScanAt(steps, scan, n));
      }
    }
  }

  lemma SameList(cfg: Config, virtualNodes: int, e: Entry, scan: seq<string>, f: Entry, later: seq<string>)
    requires RebuildsSorted(cfg, virtualNodes)
    ensures (Shaped(e.task) && Shaped(f.task) && StaysFor(e, scan, f, later) &&
             RoutedBy(cfg, cfg.ringOf(scan), e) && RoutedBy(cfg, cfg.ringOf(later), f)) ==> MayOverlap(e, f)
  {
    if Shaped(e.task) && Shaped(f.task) && e.task.kind == f.task.kind == INGEST_CONTRACT {
      if e.task.contractId != f.task.contractId {
        DifferentContracts(e.task, f.task);
      } else {
        MinimalDisruption(LayoutOf(cfg.hash, virtualNodes), scan, later, cfg.hash(e.task.routingKey));
      }
    }
  }

  /** In particular, while every scan reports the same workers. */
  lemma SteadyMembership(cfg: Config, virtualNodes: int, steps: seq<Step>, scan: seq<string>, stores: Stores)
    requires RebuildsSorted(cfg, virtualNodes)
    requires Legal(cfg, steps, Fresh(cfg.ringOf(scan), stores))
    requires forall k: nat :: k < |Dispatched(steps)| ==> Elements(ScanAt(steps, scan, k)) == Elements(scan)
    ensures OwnersStay(steps, scan, Run(cfg, steps, Fresh(cfg.ringOf(scan), stores)).log)
  {
    var log := Run(cfg, steps, Fresh(cfg.ringOf(scan), stores)).log;
    forall k | 0 <= k < |log| ensures k < |Dispatched(steps)| && log[k].worker in Elements(ScanAt(steps, scan, k)) {
      LoggedWereDispatched(cfg, steps, cfg.ringOf(scan), stores, k);
      RoutedAsDispatched(cfg, steps, scan, stores, k);
      RoutedToMembersOnly(LayoutOf(cfg.hash, virtualNodes), ScanAt(steps, scan, k), cfg.hash(log[k].task.routingKey));
    }
    forall m, n | 0 <= m < n < |log| && log[m].task.kind == log[n].task.kind == INGEST_CONTRACT
      ensures StaysFor(log[m], ScanAt(steps, scan, m), log[n], ScanAt(steps, scan, n))
    {
      assert log[m].worker in Elements(ScanAt(steps, scan, n)) && log[n].worker in Elements(ScanAt(steps, scan, m));
    }
  }
}
