/** What moving a contract to another worker can do to the order of its tasks, and when it does no
    harm. */
module Rerouting {
  import opened Options
  import opened LexicalOrder
  import opened HashRing
  import opened IngestStores
  import opened Pool
  import opened Serializability
  import opened Refinement
  import opened Locality
  import Conservation

  ghost predicate InOrder(cfg: Config, steps: seq<Step>, ring: map<int, string>, stores: Stores)
    requires Legal(cfg, steps, Fresh(ring, stores))
  {
    Shown(Scores(steps), Run(cfg, steps, Fresh(ring, stores)).stores) ==
    ProcessAll(cfg.embed, Dispatched(steps), Shown(Scores(steps), stores))
  }

  lemma EnqueuedAt(cfg: Config, t: Task, w: string, s: Pool)
    requires Route(cfg, s.ring, t) == Some(w)
    ensures Enabled(cfg, Dispatch(t), s)
    ensures Next(cfg, Dispatch(t), s) ==
            s.(log := s.log + [Entry(t, w, 0, Queued)],
               workers := s.workers[w := At(s, w).(queue := At(s, w).queue + [|s.log|])])
  {}

  /** A worker with one task in its queue can work it off. */
  lemma WorkOff(cfg: Config, w: string, n: nat, s: Pool) returns (steps: seq<Step>)
    requires At(s, w) == Worker([n], None, false, []) && n < |s.log| && s.log[n].progress == 0
    ensures Works(steps) && Legal(cfg, steps, s)
    ensures var d := Run(cfg, steps, s);
            && d.stores == Process(cfg.embed, s.log[n].task, s.stores)
            && At(d, w).queue == [] && At(d, w).hand == None
            && (forall v :: v != w ==> At(d, v) == At(s, v))
            && |d.log| == |s.log| && (forall m :: 0 <= m < |s.log| && m != n ==> d.log[m] == s.log[m])
  {
    var next := Next(cfg, Pop(w), s);
    assert Advance(cfg.embed, s.log[n].task, 0, s.stores) == s.stores;
    var rest := HandleTask(cfg, w, Commits(s.log[n].task), s.stores, next);
    steps := [Pop(w)] + rest;
    Prepend(cfg, Pop(w), rest, s);
  }

  // ----- Overtaking -----

  /** Two tasks wait, each with its own worker, and nothing else is going on. */
  ghost predicate BothWait(s: Pool, t: Task, v: string, u: Task, w: string) {
    && |s.log| == 2 && s.log[0] == Entry(t, v, 0, Queued) && s.log[1] == Entry(u, w, 0, Queued)
    && forall x :: At(s, x) == Worker(if x == v then [0] else if x == w then [1] else [], None, false, [])
  }

  lemma SecondFirst(cfg: Config, t: Task, v: string, u: Task, w: string, s: Pool) returns (steps: seq<Step>)
    requires v != w && BothWait(s, t, v, u, w)
    ensures Works(steps) && Legal(cfg, steps, s)
    ensures Drained(Run(cfg, steps, s))
    ensures Run(cfg, steps, s).stores == Process(cfg.embed, t, Process(cfg.embed, u, s.stores))
  {
    var a := WorkOff(cfg, w, 1, s);
    var middle := Run(cfg, a, s);
    assert At(middle, v) == At(s, v);
    var b := WorkOff(cfg, v, 0, middle);
    RunAppend(cfg, a, b, s);
    steps := a + b;
    var d := Run(cfg, steps, s);
    forall x ensures At(d, x).queue == [] && At(d, x).hand == None {
      if x != v && x != w { assert At(d, x) == At(middle, x) == At(s, x); }
      if x == w { assert At(d, x) == At(middle, x); }
    }
  }

  function Settling(u: Task, work: seq<Step>): seq<Step> {
    [Dispatch(u)] + work
  }

  function Moving(scan: seq<string>, u: Task, work: seq<Step>): seq<Step> {
    [Refresh(scan)] + Settling(u, work)
  }

  /** Task `t` is dispatched, the ring is refreshed, task `u` is dispatched, and then the workers work. */
  function MovedBetween(t: Task, scan: seq<string>, u: Task, work: seq<Step>): seq<Step> {
    [Dispatch(t)] + Moving(scan, u, work)
  }

  /** The same from the start of a dispatcher, whose ring is empty until its first refresh. */
  function FromStart(first: seq<string>, t: Task, scan: seq<string>, u: Task, work: seq<Step>): seq<Step> {
    [Refresh(first)] + MovedBetween(t, scan, u, work)
  }

  /** One task waits with its worker, and nothing else is going on. */
  ghost predicate OneWaits(s: Pool, t: Task, v: string) {
    && s.log == [Entry(t, v, 0, Queued)]
    && forall x :: At(s, x) == Worker(if x == v then [0] else [], None, false, [])
  }

  ghost predicate SettledSecondFirst(cfg: Config, t: Task, u: Task, steps: seq<Step>, s: Pool) {
    && Legal(cfg, steps, s) && Drained(Run(cfg, steps, s))
    && Run(cfg, steps, s).stores == Process(cfg.embed, t, Process(cfg.embed, u, s.stores))
  }

  lemma DispatchSecond(cfg: Config, t: Task, v: string, u: Task, w: string, s: Pool) returns (work: seq<Step>)
    requires v != w && Route(cfg, s.ring, u) == Some(w) && OneWaits(s, t, v)
    ensures Works(work) && SettledSecondFirst(cfg, t, u, Settling(u, work), s)
  {
    EnqueuedAt(cfg, u, w, s);
    var next := Next(cfg, Dispatch(u), s);
    forall x ensures At(next, x) == Worker(if x == v then [0] else if x == w then [1] else [], None, false, []) {
      assert At(s, x) == Worker(if x == v then [0] else [], None, false, []);
    }
    work := SecondFirst(cfg, t, v, u, w, next);
    Prepend(cfg, Dispatch(u), work, s);
  }

  lemma RefreshedWaits(cfg: Config, scan: seq<string>, t: Task, v: string, s: Pool)
    requires OneWaits(s, t, v)
    ensures OneWaits(Next(cfg, Refresh(scan), s), t, v)
  {
    assert forall x :: At(Next(cfg, Refresh(scan), s), x) == At(s, x);
  }

  lemma RefreshThenSecond(cfg: Config, t: Task, v: string, scan: seq<string>, u: Task, w: string, s: Pool)
    returns (work: seq<Step>)
    requires v != w && Route(cfg, cfg.ringOf(scan), u) == Some(w) && OneWaits(s, t, v)
    ensures Works(work) && SettledSecondFirst(cfg, t, u, Moving(scan, u, work), s)
  {
    RefreshedWaits(cfg, scan, t, v, s);
    work := DispatchSecond(cfg, t, v, u, w, Next(cfg, Refresh(scan), s));
    Prepend(cfg, Refresh(scan), Settling(u, work), s);
  }

  lemma FirstWaits(cfg: Config, ring: map<int, string>, t: Task, v: string, stores: Stores)
    requires Route(cfg, ring, t) == Some(v)
    ensures OneWaits(Next(cfg, Dispatch(t), Fresh(ring, stores)), t, v)
  {
    EnqueuedAt(cfg, t, v, Fresh(ring, stores));
    assert [] + [0] == [0];
  }

  /** Whenever a refresh moves a key between its two tasks, some run without failures lets the second
      overtake the first: on any ring, for any scan. */
  lemma Overtaking(cfg: Config, ring: map<int, string>, t: Task, v: string, scan: seq<string>, u: Task, w: string,
                   stores: Stores)
    returns (work: seq<Step>)
    requires Route(cfg, ring, t) == Some(v) && Route(cfg, cfg.ringOf(scan), u) == Some(w) && v != w
    ensures Works(work) && SettledSecondFirst(cfg, t, u, MovedBetween(t, scan, u, work), Fresh(ring, stores))
  {
    var s := Fresh(ring, stores);
    FirstWaits(cfg, ring, t, v, stores);
    work := RefreshThenSecond(cfg, t, v, scan, u, w, Next(cfg, Dispatch(t), s));
    Prepend(cfg, Dispatch(t), Moving(scan, u, work), s);
  }

  lemma OvertakingFromStart(cfg: Config, first: seq<string>, t: Task, v: string, scan: seq<string>, u: Task, w: string,
                            stores: Stores)
    returns (work: seq<Step>)
    requires Route(cfg, cfg.ringOf(first), t) == Some(v) && Route(cfg, cfg.ringOf(scan), u) == Some(w) && v != w
    ensures Works(work) && SettledSecondFirst(cfg, t, u, FromStart(first, t, scan, u, work), Fresh(map[], stores))
  {
    work := Overtaking(cfg, cfg.ringOf(first), t, v, scan, u, w, stores);
    Prepend(cfg, Refresh(first), MovedBetween(t, scan, u, work), Fresh(map[], stores));
  }

  // ----- When it does no harm: two tasks -----

  lemma {:induction false} WorkDispatchesNothing(work: seq<Step>)
    requires Works(work)
    ensures Dispatched(work) == []
  {
    if work != [] {
      assert forall i :: 0 <= i < |work[1..]| ==> work[1..][i] == work[i + 1];
      WorkDispatchesNothing(work[1..]);
    }
  }

  lemma DispatchedCons(step: Step, rest: seq<Step>)
    ensures Dispatched([step] + rest) == TasksOf(step) + Dispatched(rest)
  {
    assert ([step] + rest)[1..] == rest;
  }

  lemma FromStartDispatches(first: seq<string>, t: Task, scan: seq<string>, u: Task, work: seq<Step>)
    requires Works(work)
    ensures Dispatched(FromStart(first, t, scan, u, work)) == [t, u]
  {
    WorkDispatchesNothing(work);
    DispatchedCons(Dispatch(u), work);
    DispatchedCons(Refresh(scan), Settling(u, work));
    DispatchedCons(Dispatch(t), Moving(scan, u, work));
    DispatchedCons(Refresh(first), MovedBetween(t, scan, u, work));
  }

  lemma FromStartSucceeds(first: seq<string>, t: Task, scan: seq<string>, u: Task, work: seq<Step>)
    requires Works(work)
    ensures Succeeds(FromStart(first, t, scan, u, work)) && !Scores(FromStart(first, t, scan, u, work))
  {
    var steps := FromStart(first, t, scan, u, work);
    forall i | 0 <= i < |steps| ensures !steps[i].Raise? && !steps[i].Crash? && !steps[i].WriteRisk? {
      if i >= 4 { assert steps[i] == work[i - 4]; }
    }
  }

  lemma RingAtCons(cfg: Config, step: Step, rest: seq<Step>, ring: map<int, string>, k: nat)
    ensures RingAt(cfg, [step] + rest, ring, k) ==
            if k < |TasksOf(step)| then ring else RingAt(cfg, rest, RingAfterStep(cfg, step, ring), k - |TasksOf(step)|)
  {
    assert ([step] + rest)[1..] == rest;
  }

  lemma RingsOfTheTwo(cfg: Config, first: seq<string>, t: Task, scan: seq<string>, u: Task, work: seq<Step>)
    ensures RingAt(cfg, FromStart(first, t, scan, u, work), map[], 0) == cfg.ringOf(first)
    ensures RingAt(cfg, FromStart(first, t, scan, u, work), map[], 1) == cfg.ringOf(scan)
  {
    RingAtCons(cfg, Refresh(first), MovedBetween(t, scan, u, work), map[], 0);
    RingAtCons(cfg, Refresh(first), MovedBetween(t, scan, u, work), map[], 1);
    RingAtCons(cfg, Dispatch(t), Moving(scan, u, work), cfg.ringOf(first), 0);
    RingAtCons(cfg, Dispatch(t), Moving(scan, u, work), cfg.ringOf(first), 1);
    RingAtCons(cfg, Refresh(scan), Settling(u, work), cfg.ringOf(first), 0);
    RingAtCons(cfg, Dispatch(u), work, cfg.ringOf(scan), 0);
  }

  lemma WorkersOfTheTwo(cfg: Config, steps: seq<Step>, stores: Stores, t: Task, v: string, u: Task, w: string)
    requires Legal(cfg, steps, Fresh(map[], stores)) && Dispatched(steps) == [t, u]
    requires Route(cfg, RingAt(cfg, steps, map[], 0), t) == Some(v)
    requires Route(cfg, RingAt(cfg, steps, map[], 1), u) == Some(w)
    ensures var log := Run(cfg, steps, Fresh(map[], stores)).log;
            |log| == 2 && log[0].task == t && log[0].worker == v && log[1].task == u && log[1].worker == w
  {
    var d := Run(cfg, steps, Fresh(map[], stores));
    Conservation.RunLogs(cfg, steps, Fresh(map[], stores));
    RunRouted(cfg, steps, Fresh(map[], stores), 0);
    RunRouted(cfg, steps, Fresh(map[], stores), 1);
    TheTwo(cfg, steps, Fresh(map[], stores), d, t, u);
  }

  lemma TheTwo(cfg: Config, steps: seq<Step>, s: Pool, d: Pool, t: Task, u: Task)
    requires s.log == [] && Logged(d.log) == Logged(s.log) + [t, u]
    requires DispatchRouted(cfg, steps, s, d, 0) && DispatchRouted(cfg, steps, s, d, 1)
    ensures |d.log| == 2 && d.log[0].task == t && d.log[1].task == u
    ensures Route(cfg, RingAt(cfg, steps, s.ring, 0), t) == Some(d.log[0].worker)
    ensures Route(cfg, RingAt(cfg, steps, s.ring, 1), u) == Some(d.log[1].worker)
  {
    assert Logged(s.log) == [];
    assert Logged(d.log)[0] == d.log[0].task && Logged(d.log)[1] == d.log[1].task;
  }

  ghost predicate Settles(cfg: Config, first: seq<string>, t: Task, scan: seq<string>, u: Task, work: seq<Step>,
                          stores: Stores) {
    var steps := FromStart(first, t, scan, u, work);
    Works(work) && Legal(cfg, steps, Fresh(map[], stores)) && Drained(Run(cfg, steps, Fresh(map[], stores)))
  }

  ghost predicate AlwaysSettleInOrder(cfg: Config, first: seq<string>, t: Task, scan: seq<string>, u: Task) {
    forall work, stores :: Settles(cfg, first, t, scan, u, work, stores) ==>
      InOrder(cfg, FromStart(first, t, scan, u, work), map[], stores)
  }

  /** Two ingests with a refresh between them end in dispatch order, however the workers interleave
      and whatever was stored, exactly when the refresh leaves them on one list or they are compatible. */
  lemma TwoTasksExactly(cfg: Config, first: seq<string>, t: Task, v: string, scan: seq<string>, u: Task, w: string)
    requires t.kind == u.kind == INGEST_CONTRACT
    requires Route(cfg, cfg.ringOf(first), t) == Some(v) && Route(cfg, cfg.ringOf(scan), u) == Some(w)
    ensures AlwaysSettleInOrder(cfg, first, t, scan, u) <==> v == w || Compatible(t, u)
  {
    if v == w || Compatible(t, u) {
      forall work, stores | Settles(cfg, first, t, scan, u, work, stores)
        ensures InOrder(cfg, FromStart(first, t, scan, u, work), map[], stores)
      {
        TwoInOrder(cfg, first, t, v, scan, u, w, work, stores);
      }
    } else {
      var work := OvertakingFromStart(cfg, first, t, v, scan, u, w, EMPTY);
      assert Settles(cfg, first, t, scan, u, work, EMPTY);
      OutOfOrder(cfg, first, t, scan, u, work);
    }
  }

  lemma TwoInOrder(cfg: Config, first: seq<string>, t: Task, v: string, scan: seq<string>, u: Task, w: string,
                   work: seq<Step>, stores: Stores)
    requires Settles(cfg, first, t, scan, u, work, stores) && (v == w || Compatible(t, u))
    requires Route(cfg, cfg.ringOf(first), t) == Some(v) && Route(cfg, cfg.ringOf(scan), u) == Some(w)
    ensures InOrder(cfg, FromStart(first, t, scan, u, work), map[], stores)
  {
    var steps := FromStart(first, t, scan, u, work);
    FromStartDispatches(first, t, scan, u, work);
    FromStartSucceeds(first, t, scan, u, work);
    RingsOfTheTwo(cfg, first, t, scan, u, work);
    WorkersOfTheTwo(cfg, steps, stores, t, v, u, w);
    SerialEquivalence(cfg, steps, map[], stores);
  }

  lemma OutOfOrder(cfg: Config, first: seq<string>, t: Task, scan: seq<string>, u: Task, work: seq<Step>)
    requires t.kind == u.kind == INGEST_CONTRACT && !Compatible(t, u) && Works(work)
    requires SettledSecondFirst(cfg, t, u, FromStart(first, t, scan, u, work), Fresh(map[], EMPTY))
    ensures !InOrder(cfg, FromStart(first, t, scan, u, work), map[], EMPTY)
  {
    FromStartDispatches(first, t, scan, u, work);
    FromStartSucceeds(first, t, scan, u, work);
    OrderShows(cfg.embed, t, u);
    InTurn(cfg.embed, t, u);
  }

  lemma InTurn(embed: string -> Embedding, t: Task, u: Task)
    ensures ProcessAll(embed, [t, u], EMPTY) == Process(embed, u, Process(embed, t, EMPTY))
  {
    assert [t, u][1..] == [u] && [u][1..] == [];
    assert ProcessAll(embed, [u], Process(embed, t, EMPTY)) == Process(embed, u, Process(embed, t, EMPTY));
  }

  // ----- When it does no harm: all runs -----

  /** A run of `universe` tasks from the start of a dispatcher, without failures, to the end. */
  ghost predicate GoodRun(cfg: Config, universe: set<Task>, steps: seq<Step>, stores: Stores) {
    && Elements(Dispatched(steps)) <= universe && Succeeds(steps)
    && Legal(cfg, steps, Fresh(map[], stores)) && Drained(Run(cfg, steps, Fresh(map[], stores)))
  }

  ghost predicate AlwaysInOrder(cfg: Config, universe: set<Task>) {
    forall steps, stores :: GoodRun(cfg, universe, steps, stores) ==> InOrder(cfg, steps, map[], stores)
  }

  lemma RoutedToOnly(cfg: Config, virtualNodes: int, w: string, t: Task)
    requires RebuildsSorted(cfg, virtualNodes) && virtualNodes > 0 && w != ""
    ensures Route(cfg, cfg.ringOf([w]), t) == Some(w)
  {
    var layout := LayoutOf(cfg.hash, virtualNodes);
    assert [w][1..] == [] && Sort([w]) == [w];
    RebuiltForOne(layout, w);
    var h := cfg.hash(Label(w, virtualNodes - 1));
    assert h in layout(w);
    assert h in Rebuilt(layout, [w]);
    assert Successor(Rebuilt(layout, [w]).Keys, cfg.hash(t.routingKey)) in Rebuilt(layout, [w]);
  }

  lemma RebuiltForOne(layout: Layout, w: string)
    ensures Rebuilt(layout, [w]) == Added(layout, map[], w)
  {
    assert [w][..0] == [];
  }

  /** On a ring that refreshes may change, every run without failures that drains the queues leaves
      the stores of a sequential ingest in dispatch order, exactly when any two ingests that may be
      dispatched are compatible. */
  lemma ReroutingIsSafeExactly(cfg: Config, virtualNodes: int, universe: set<Task>)
    requires RebuildsSorted(cfg, virtualNodes) && virtualNodes > 0
    ensures AlwaysInOrder(cfg, universe) <==> Consistent(universe)
  {
    if Consistent(universe) {
      forall steps, stores | GoodRun(cfg, universe, steps, stores) ensures InOrder(cfg, steps, map[], stores) {
        ConsistentRun(cfg, universe, steps, stores);
      }
    } else {
      var t, u :| t in universe && u in universe && t.kind == u.kind == INGEST_CONTRACT && !Compatible(t, u);
      InconsistentRun(cfg, virtualNodes, universe, t, u);
    }
  }

  lemma ConsistentRun(cfg: Config, universe: set<Task>, steps: seq<Step>, stores: Stores)
    requires Consistent(universe) && GoodRun(cfg, universe, steps, stores)
    ensures InOrder(cfg, steps, map[], stores)
  {
    var log := Run(cfg, steps, Fresh(map[], stores)).log;
    Conservation.RunLogs(cfg, steps, Fresh(map[], stores));
    assert Logged(Fresh(map[], stores).log) == [];
    assert Logged(log) == Dispatched(steps);
    ConsistentIsColocated(log);
    SerialEquivalence(cfg, steps, map[], stores);
  }

  lemma InconsistentRun(cfg: Config, virtualNodes: int, universe: set<Task>, t: Task, u: Task)
    requires RebuildsSorted(cfg, virtualNodes) && virtualNodes > 0 && t in universe && u in universe
    requires t.kind == u.kind == INGEST_CONTRACT && !Compatible(t, u)
    ensures !AlwaysInOrder(cfg, universe)
  {
    RoutedToOnly(cfg, virtualNodes, "a", t);
    RoutedToOnly(cfg, virtualNodes, "b", u);
    MovedRun(cfg, universe, ["a"], t, "a", ["b"], u, "b");
  }

  lemma MovedRun(cfg: Config, universe: set<Task>, first: seq<string>, t: Task, v: string, scan: seq<string>, u: Task,
                 w: string)
    requires Route(cfg, cfg.ringOf(first), t) == Some(v) && Route(cfg, cfg.ringOf(scan), u) == Some(w) && v != w
    requires t in universe && u in universe && t.kind == u.kind == INGEST_CONTRACT && !Compatible(t, u)
    ensures !AlwaysInOrder(cfg, universe)
  {
    var work := OvertakingFromStart(cfg, first, t, v, scan, u, w, EMPTY);
    OutOfOrder(cfg, first, t, scan, u, work);
    FromStartDispatches(first, t, scan, u, work);
    FromStartSucceeds(first, t, scan, u, work);
    assert GoodRun(cfg, universe, FromStart(first, t, scan, u, work), EMPTY);
  }
}
