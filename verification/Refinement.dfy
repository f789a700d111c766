/** The classes of the dispatcher, the worker and the vector index do what the steps of the pool say. */
module Refinement {
  import opened Options
  import opened IngestStores
  import opened Dispatcher
  import opened IngestWorker
  import opened Pool
  import opened PoolInvariant
  import VectorIndex

  // ----- Lists in Redis and queues of tickets -----

  function TasksAt(log: seq<Entry>, tickets: seq<nat>): seq<Task>
    requires forall i :: 0 <= i < |tickets| ==> tickets[i] < |log|
  {
    seq(|tickets|, i requires 0 <= i < |tickets| => log[tickets[i]].task)
  }

  /** The lists hold, for each worker, the tasks that wait in the pool's queue. */
  ghost predicate Represents(lists: Lists, s: Pool) {
    forall w :: w != "" ==> Waits(lists, s.log, At(s, w).queue, w)
  }

  ghost predicate Waits(lists: Lists, log: seq<Entry>, queue: seq<nat>, w: string) {
    && (forall i :: 0 <= i < |queue| ==> queue[i] < |log|)
    && ListAt(lists, WorkerQueueKey(w)) == TasksAt(log, queue)
  }

  lemma WaitsAfterPush(lists: Lists, log: seq<Entry>, queue: seq<nat>, w: string, v: string, e: Entry)
    requires Waits(lists, log, queue, w)
    ensures Waits(Pushed(lists, WorkerQueueKey(v), e.task), log + [e], if w == v then queue + [|log|] else queue, w)
  {
    PushedReads(lists, v, e.task, w);
    if w == v {
      assert TasksAt(log + [e], queue + [|log|]) == TasksAt(log, queue) + [e.task];
    } else {
      assert TasksAt(log + [e], queue) == TasksAt(log, queue);
    }
  }

  /** A dispatch pushes to the list what the pool enqueues. */
  lemma DispatchRefines(cfg: Config, t: Task, lists: Lists, s: Pool)
    requires Represents(lists, s) && Route(cfg, s.ring, t).Some?
    ensures Represents(Pushed(lists, WorkerQueueKey(Route(cfg, s.ring, t).value), t), Enqueue(cfg, t, s))
  {
    var v := Route(cfg, s.ring, t).value;
    forall w | w != ""
      ensures Waits(Pushed(lists, WorkerQueueKey(v), t), Enqueue(cfg, t, s).log, At(Enqueue(cfg, t, s), w).queue, w)
    {
      assert Waits(lists, s.log, At(s, w).queue, w);
      WaitsAfterPush(lists, s.log, At(s, w).queue, w, v, Entry(t, v, 0, Queued));
    }
  }

  lemma {:induction false} DispatchManyRefines(cfg: Config, tasks: seq<Task>, lists: Lists, s: Pool)
    requires Represents(lists, s) && forall t :: t in tasks ==> Route(cfg, s.ring, t).Some?
    ensures Represents(DispatchedInTurn(cfg.hash, s.ring, tasks, lists), EnqueueAll(cfg, tasks, s))
  {
    if tasks != [] {
      var next := Enqueue(cfg, tasks[0], s);
      DispatchRefines(cfg, tasks[0], lists, s);
      var key := WorkerQueueKey(Route(cfg, s.ring, tasks[0]).value);
      DispatchManyRefines(cfg, tasks[1..], Pushed(lists, key, tasks[0]), next);
    }
  }

  /** What `BlPop` does to the lists of a worker that has something to do. */
  ghost predicate HeadTaken(before: Lists, after: Lists, key: string) {
    && ListAt(before, key) != [] && ListAt(after, key) == ListAt(before, key)[1..]
    && forall k :: k != key ==> ListAt(after, k) == ListAt(before, k)
  }

  /** Taking the head of its list, a worker takes the task of its first ticket. */
  lemma PopRefines(cfg: Config, w: string, lists: Lists, after: Lists, s: Pool)
    requires Represents(lists, s) && Inv(s) && w != "" && Enabled(cfg, Pop(w), s)
    requires HeadTaken(lists, after, WorkerQueueKey(w))
    ensures var next := Next(cfg, Pop(w), s);
            && Holds(next, w) && next.log[At(next, w).hand.value].task == ListAt(lists, WorkerQueueKey(w))[0]
            && next.log[At(next, w).hand.value].progress == 0
            && Represents(after, next)
  {
    var n := At(s, w).queue[0];
    assert Waits(lists, s.log, At(s, w).queue, w);
    assert WorkerOk(s.log, w, At(s, w));
    var next := Next(cfg, Pop(w), s);
    forall v | v != "" ensures Waits(after, next.log, At(next, v).queue, v) {
      assert Waits(lists, s.log, At(s, v).queue, v);
      StillWaits(lists, s.log, At(s, v).queue, v, n, next.log[n]);
      if v != w && WorkerQueueKey(w) == WorkerQueueKey(v) { QueueKeysDiffer(w, v); }
      if v == w {
        TailWaits(lists, after, next.log, At(s, w).queue, w);
      }
    }
  }

  /** What becomes of an entry does not matter to those who wait. */
  lemma StillWaits(lists: Lists, log: seq<Entry>, queue: seq<nat>, w: string, n: nat, e: Entry)
    requires Waits(lists, log, queue, w) && n < |log| && e.task == log[n].task
    ensures Waits(lists, log[n := e], queue, w)
  {
    assert TasksAt(log[n := e], queue) == TasksAt(log, queue);
  }

  lemma TailWaits(lists: Lists, after: Lists, log: seq<Entry>, queue: seq<nat>, w: string)
    requires Waits(lists, log, queue, w) && queue != [] && HeadTaken(lists, after, WorkerQueueKey(w))
    ensures Waits(after, log, queue[1..], w)
  {
    assert TasksAt(log, queue[1..]) == TasksAt(log, queue)[1..];
  }

  // ----- Runs step after step -----

  lemma HeadOfSum<T>(a: seq<T>, b: seq<T>)
    requires a != []
    ensures a + b == [a[0]] + (a[1..] + b)
  {}

  lemma {:induction false} RunAppend(cfg: Config, a: seq<Step>, b: seq<Step>, s: Pool)
    requires Legal(cfg, a, s) && Legal(cfg, b, Run(cfg, a, s))
    ensures Legal(cfg, a + b, s) && Run(cfg, a + b, s) == Run(cfg, b, Run(cfg, a, s))
  {
    if a == [] {
      assert a + b == b;
    } else {
      var step, rest := a[0], a[1..];
      RunAppend(cfg, rest, b, Next(cfg, step, s));
      HeadOfSum(a, b);
      Prepend(cfg, step, rest + b, s);
    }
  }

  lemma Prepend(cfg: Config, step: Step, rest: seq<Step>, s: Pool)
    requires Enabled(cfg, step, s) && Legal(cfg, rest, Next(cfg, step, s))
    ensures Legal(cfg, [step] + rest, s) && Run(cfg, [step] + rest, s) == Run(cfg, rest, Next(cfg, step, s))
  {
    assert ([step] + rest)[1..] == rest;
  }

  /** Only steps of workers, none of which fails. */
  predicate Works(steps: seq<Step>) {
    forall i :: 0 <= i < |steps| ==> steps[i].Pop? || steps[i].Write? || steps[i].Return?
  }

  /** What a handler's steps leave alone. */
  ghost predicate OnlyHandled(s: Pool, d: Pool, w: string) {
    && d.ring == s.ring
    && At(d, w).queue == At(s, w).queue && At(d, w).hand == None && !At(d, w).crashed
    && (forall v :: v != w ==> At(d, v) == At(s, v))
    && |d.log| == |s.log| && (forall m :: 0 <= m < |s.log| ==> d.log[m].task == s.log[m].task)
    && (forall m :: 0 <= m < |s.log| && At(s, w).hand != Some(m) ==> d.log[m] == s.log[m])
  }

  lemma WriteHandles(cfg: Config, w: string, s: Pool)
    requires Enabled(cfg, Write(w), s)
    ensures var n := At(s, w).hand.value;
            && Holds(Next(cfg, Write(w), s), w) && Next(cfg, Write(w), s).workers == s.workers
            && Next(cfg, Write(w), s).ring == s.ring
            && Next(cfg, Write(w), s).log == s.log[n := s.log[n].(progress := s.log[n].progress + 1)]
            && Next(cfg, Write(w), s).stores == Commit(cfg.embed, s.log[n].task, s.log[n].progress, s.stores)
  {}

  lemma EndHandles(cfg: Config, w: string, last: Step, s: Pool)
    requires (last == Return(w) || last == Raise(w)) && Enabled(cfg, last, s)
    ensures OnlyHandled(s, Next(cfg, last, s), w) && Next(cfg, last, s).stores == s.stores
  {}

  /** A handler's run on to commit number `goal` of its task, which it ends. */
  ghost predicate Handles(cfg: Config, w: string, goal: nat, base: Stores, steps: seq<Step>, s: Pool)
    requires Holds(s, w)
  {
    var e := s.log[At(s, w).hand.value];
    && Legal(cfg, steps, s) && OnlyHandled(s, Run(cfg, steps, s), w)
    && Run(cfg, steps, s).stores == Advance(cfg.embed, e.task, goal, base)
    && (goal == Commits(e.task) ==> Works(steps))
  }

  lemma HandlesOneMore(cfg: Config, w: string, goal: nat, base: Stores, rest: seq<Step>, s: Pool)
    requires Enabled(cfg, Write(w), s) && Holds(Next(cfg, Write(w), s), w)
    requires Handles(cfg, w, goal, base, rest, Next(cfg, Write(w), s))
    ensures Handles(cfg, w, goal, base, [Write(w)] + rest, s)
  {
    WriteHandles(cfg, w, s);
    Prepend(cfg, Write(w), rest, s);
  }

  lemma HandlesEnd(cfg: Config, w: string, goal: nat, base: Stores, last: Step, s: Pool)
    requires (last == Return(w) || last == Raise(w)) && Enabled(cfg, last, s)
    requires var e := s.log[At(s, w).hand.value];
             s.stores == Advance(cfg.embed, e.task, goal, base) && (goal == Commits(e.task) ==> last.Return?)
    ensures Handles(cfg, w, goal, base, [last], s)
  {
    EndHandles(cfg, w, last, s);
    Prepend(cfg, last, [], s);
    assert [last] == [last] + [];
  }

  /** The handler of `w` can go on to any number of commits and then end. */
  lemma {:induction false} HandleTask(cfg: Config, w: string, goal: nat, base: Stores,
                                      s: Pool) returns (steps: seq<Step>)
    requires Holds(s, w)
    requires var e := s.log[At(s, w).hand.value];
             e.progress <= goal <= Commits(e.task) && s.stores == Advance(cfg.embed, e.task, e.progress, base)
    ensures Handles(cfg, w, goal, base, steps, s)
    decreases goal - s.log[At(s, w).hand.value].progress
  {
    var e := s.log[At(s, w).hand.value];
    if e.progress == goal {
      var last := if goal == Commits(e.task) then Return(w) else Raise(w);
      HandlesEnd(cfg, w, goal, base, last, s);
      steps := [last];
    } else {
      WriteHandles(cfg, w, s);
      assert Next(cfg, Write(w), s).stores == Advance(cfg.embed, e.task, e.progress + 1, base);
      var rest := HandleTask(cfg, w, goal, base, Next(cfg, Write(w), s));
      HandlesOneMore(cfg, w, goal, base, rest, s);
      steps := [Write(w)] + rest;
    }
  }

  // ----- The worker's loop -----

  /** A worker that is between tasks. */
  predicate Idle(s: Pool, w: string) {
    At(s, w).hand == None && !At(s, w).crashed
  }

  lemma HandledRepresents(lists: Lists, s: Pool, d: Pool, w: string)
    requires Represents(lists, s) && OnlyHandled(s, d, w)
    ensures Represents(lists, d)
  {
    forall v | v != "" ensures Waits(lists, d.log, At(d, v).queue, v) {
      assert Waits(lists, s.log, At(s, v).queue, v);
      assert TasksAt(d.log, At(d, v).queue) == TasksAt(s.log, At(s, v).queue);
    }
  }

  /** One round of the worker's loop is a run of the pool. */
  lemma PollRefines(cfg: Config, w: string, faults: nat, lists: Lists, after: Lists, s: Pool) returns (steps: seq<Step>)
    requires Represents(lists, s) && Inv(s) && w != "" && Idle(s, w)
    requires HeadTaken(lists, after, WorkerQueueKey(w))
    ensures Legal(cfg, steps, s)
    ensures var d := Run(cfg, steps, s);
            var task := ListAt(lists, WorkerQueueKey(w))[0];
            && Represents(after, d) && Inv(d) && Idle(d, w)
            && d.stores == Advance(cfg.embed, task, Reached(task, faults), s.stores)
  {
    assert Waits(lists, s.log, At(s, w).queue, w);
    PopRefines(cfg, w, lists, after, s);
    var next := Next(cfg, Pop(w), s);
    var task := ListAt(lists, WorkerQueueKey(w))[0];
    assert Advance(cfg.embed, task, 0, s.stores) == s.stores;
    var rest := HandleTask(cfg, w, Reached(task, faults), s.stores, next);
    Prepend(cfg, Pop(w), rest, s);
    steps := [Pop(w)] + rest;
    HandledRepresents(after, next, Run(cfg, rest, next), w);
    RunKeepsInv(cfg, steps, s);
  }

  /** What `n` rounds take from the worker's list. */
  ghost predicate Taken(before: Lists, after: Lists, key: string, n: nat) {
    && n <= |ListAt(before, key)| && ListAt(after, key) == ListAt(before, key)[n..]
    && forall k :: k != key ==> ListAt(after, k) == ListAt(before, k)
  }

  /** After handling `tasks` the worker is between tasks again, with these lists and stores. */
  ghost predicate LoopDone(cfg: Config, w: string, d: Pool, after: Lists, stores: Stores) {
    Represents(after, d) && Inv(d) && Idle(d, w) && d.stores == stores
  }

  lemma TakenSplits(before: Lists, after: Lists, key: string, n: nat) returns (mid: Lists)
    requires n > 0 && Taken(before, after, key, n)
    ensures Taken(before, mid, key, n - 1) && HeadTaken(mid, after, key)
    ensures ListAt(mid, key)[0] == ListAt(before, key)[n - 1]
  {
    mid := before[key := ListAt(before, key)[n - 1..]];
  }

  lemma WorkedOneMore(embed: string -> Embedding, list: seq<Task>, n: nat, faults: nat -> nat, s: Stores)
    requires 0 < n <= |list|
    ensures Worked(embed, list[..n], faults, s) ==
            Advance(embed, list[n - 1], Reached(list[n - 1], faults(n - 1)), Worked(embed, list[..n - 1], faults, s))
  {
    assert list[..n][..n - 1] == list[..n - 1];
  }

  lemma OneMoreRound(cfg: Config, w: string, faults: nat, mid: Lists, after: Lists, earlier: seq<Step>, s: Pool)
    returns (last: seq<Step>)
    requires Legal(cfg, earlier, s) && w != "" && HeadTaken(mid, after, WorkerQueueKey(w))
    requires LoopDone(cfg, w, Run(cfg, earlier, s), mid, Run(cfg, earlier, s).stores)
    ensures Legal(cfg, earlier + last, s)
    ensures var task := ListAt(mid, WorkerQueueKey(w))[0];
            LoopDone(cfg, w, Run(cfg, earlier + last, s), after,
                     Advance(cfg.embed, task, Reached(task, faults), Run(cfg, earlier, s).stores))
  {
    last := PollRefines(cfg, w, faults, mid, after, Run(cfg, earlier, s));
    RunAppend(cfg, earlier, last, s);
  }

  /** The worker's loop is a run of the pool, whatever fails in it: its effect on lists and stores is
      that of the run's pops, commits, returns and failures. */
  lemma {:induction false} WorkerRunRefines(cfg: Config, w: string, n: nat, faults: nat -> nat, lists: Lists,
                                            after: Lists, s: Pool)
    returns (steps: seq<Step>)
    requires Represents(lists, s) && Inv(s) && w != "" && Idle(s, w)
    requires Taken(lists, after, WorkerQueueKey(w), n)
    ensures Legal(cfg, steps, s)
    ensures LoopDone(cfg, w, Run(cfg, steps, s), after,
                     Worked(cfg.embed, ListAt(lists, WorkerQueueKey(w))[..n], faults, s.stores))
  {
    if n == 0 {
      steps := [];
      assert forall k :: ListAt(after, k) == ListAt(lists, k);
      SameListsRepresent(lists, after, s);
    } else {
      var mid := TakenSplits(lists, after, WorkerQueueKey(w), n);
      var earlier := WorkerRunRefines(cfg, w, n - 1, faults, lists, mid, s);
      WorkedOneMore(cfg.embed, ListAt(lists, WorkerQueueKey(w)), n, faults, s.stores);
      var last := OneMoreRound(cfg, w, faults(n - 1), mid, after, earlier, s);
      steps := earlier + last;
    }
  }

  lemma SameListsRepresent(lists: Lists, after: Lists, s: Pool)
    requires Represents(lists, s) && forall k :: ListAt(after, k) == ListAt(lists, k)
    ensures Represents(after, s)
  {
    forall w | w != "" ensures Waits(after, s.log, At(s, w).queue, w) {
      assert Waits(lists, s.log, At(s, w).queue, w);
    }
  }

  // ----- The vector index and the vectors of the pool -----

  const CONTRACT_ID: string := "contract_id"
  const CATEGORY: string := "category"

  function Metadata(contractId: string, category: string): map<string, string> {
    map[CONTRACT_ID := contractId, CATEGORY := category]
  }

  function Get(metadata: map<string, string>, key: string): string {
    if key in metadata then metadata[key] else ""
  }

  function ViewOf(slot: VectorIndex.Slot): Vector {
    Vector(slot.values, Get(slot.item.metadata, CONTRACT_ID), Get(slot.item.metadata, CATEGORY))
  }

  /** The vectors that a represented map of rows stands for. */
  function Viewed(m: map<string, VectorIndex.Slot>): map<string, Vector> {
    map id | id in m :: ViewOf(m[id])
  }

  function RecordFor(embed: string -> Embedding, contractId: string, c: Clause): VectorIndex.Record {
    VectorIndex.Record(c.id, embed(c.text), Metadata(contractId, c.category))
  }

  function RecordsFor(embed: string -> Embedding, contractId: string, clauses: seq<Clause>): seq<VectorIndex.Record> {
    seq(|clauses|, i requires 0 <= i < |clauses| => RecordFor(embed, contractId, clauses[i]))
  }

  lemma MetadataViewed(contractId: string, category: string)
    ensures Get(Metadata(contractId, category), CONTRACT_ID) == contractId
    ensures Get(Metadata(contractId, category), CATEGORY) == category
  {
    assert CONTRACT_ID[1] != CATEGORY[1];
  }

  lemma {:induction false} OverriddenViewed(m: map<string, VectorIndex.Slot>, embed: string -> Embedding,
                                            contractId: string, clauses: seq<Clause>)
    ensures Viewed(VectorIndex.Overridden(m, RecordsFor(embed, contractId, clauses))) ==
            PutVectors(Viewed(m), embed, contractId, clauses)
  {
    if clauses != [] {
      var n := |clauses| - 1;
      OverriddenViewed(m, embed, contractId, clauses[..n]);
      assert RecordsFor(embed, contractId, clauses)[..n] == RecordsFor(embed, contractId, clauses[..n]);
      MetadataViewed(contractId, clauses[n].category);
    }
  }

  /** For a contract whose clauses the parser has de-duplicated, the upsert of the local index is the
      vector commit of the pool, and ids stay unique for the next. */
  lemma UpsertRefinesCommit(slots: seq<VectorIndex.Slot>, embed: string -> Embedding, contractId: string,
                            clauses: seq<Clause>)
    requires VectorIndex.UniqueIds(slots)
    requires forall i, j :: 0 <= i < j < |clauses| ==> clauses[i].id != clauses[j].id
    ensures var after := VectorIndex.Upserted(slots, RecordsFor(embed, contractId, clauses));
            && VectorIndex.UniqueIds(after)
            && Viewed(VectorIndex.Contents(after)) ==
               PutVectors(Viewed(VectorIndex.Contents(slots)), embed, contractId, clauses)
  {
    var records := RecordsFor(embed, contractId, clauses);
    VectorIndex.DistinctBatch(VectorIndex.Positions(slots), records);
    VectorIndex.UpsertKeepsUnique(slots, records);
    VectorIndex.UpsertRefinesMap(slots, records);
    OverriddenViewed(VectorIndex.Contents(slots), embed, contractId, clauses);
  }
}
