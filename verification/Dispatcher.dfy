/** Routing tasks to the workers' lists in Redis, and taking them off again. */
module Dispatcher {
  import opened Options
  import opened HashRing
  import opened IngestStores

  datatype DispatchError = NoWorkersAvailable

  type Lists = map<string, seq<Task>>

  function ListAt(lists: Lists, key: string): seq<Task> {
    if key in lists then lists[key] else []
  }

  function Pushed(lists: Lists, key: string, task: Task): Lists {
    lists[key := ListAt(lists, key) + [task]]
  }

  function PushedAll(lists: Lists, pipe: seq<(string, Task)>): Lists
    decreases pipe
  {
    if pipe == [] then lists else PushedAll(Pushed(lists, pipe[0].0, pipe[0].1), pipe[1..])
  }

  function WorkerQueueKey(worker: string): string {
    "queue:" + worker
  }

  lemma QueueKeysDiffer(v: string, w: string)
    requires WorkerQueueKey(v) == WorkerQueueKey(w)
    ensures v == w
  {
    assert WorkerQueueKey(v)[6..] == v && WorkerQueueKey(w)[6..] == w;
  }

  /** The owner of a routing key; an empty worker id counts as none. */
  ghost function RouteOf(hash: string -> int, ring: map<int, string>, routingKey: string): Option<string> {
    var owner := Owner(ring, hash(routingKey));
    if owner == Some("") then None else owner
  }

  lemma PushedReads(lists: Lists, v: string, t: Task, w: string)
    ensures ListAt(Pushed(lists, WorkerQueueKey(v), t), WorkerQueueKey(w)) ==
            ListAt(lists, WorkerQueueKey(w)) + if v == w then [t] else []
  {
    if WorkerQueueKey(v) == WorkerQueueKey(w) { QueueKeysDiffer(v, w); }
  }

  /** The lists after one dispatch, which may find no worker. */
  ghost function DispatchedOne(hash: string -> int, ring: map<int, string>, task: Task, lists: Lists): Lists {
    var worker := RouteOf(hash, ring, task.routingKey);
    if worker.Some? then Pushed(lists, WorkerQueueKey(worker.value), task) else lists
  }

  ghost function ShareOf(hash: string -> int, ring: map<int, string>, task: Task, worker: string): seq<Task> {
    if RouteOf(hash, ring, task.routingKey) == Some(worker) then [task] else []
  }

  /** The lists after successive calls of `Dispatch`. */
  ghost function DispatchedInTurn(hash: string -> int, ring: map<int, string>, tasks: seq<Task>, lists: Lists): Lists {
    if tasks == [] then lists
    else DispatchedInTurn(hash, ring, tasks[1..], DispatchedOne(hash, ring, tasks[0], lists))
  }

  /** The tasks that go to `worker`, in order. */
  ghost function Share(hash: string -> int, ring: map<int, string>, tasks: seq<Task>, worker: string): seq<Task> {
    if tasks == [] then [] else ShareOf(hash, ring, tasks[0], worker) + Share(hash, ring, tasks[1..], worker)
  }

  lemma OneGetsIt(hash: string -> int, ring: map<int, string>, task: Task, lists: Lists, worker: string)
    ensures ListAt(DispatchedOne(hash, ring, task, lists), WorkerQueueKey(worker)) ==
            ListAt(lists, WorkerQueueKey(worker)) + ShareOf(hash, ring, task, worker)
  {
    var route := RouteOf(hash, ring, task.routingKey);
    if route.Some? { PushedReads(lists, route.value, task, worker); }
  }

  /** Each worker's list grows by exactly its share, in dispatch order. */
  lemma {:induction false} EachGetsItsShare(hash: string -> int, ring: map<int, string>, tasks: seq<Task>, lists: Lists,
                                            worker: string)
    requires worker != ""
    ensures ListAt(DispatchedInTurn(hash, ring, tasks, lists), WorkerQueueKey(worker)) ==
            ListAt(lists, WorkerQueueKey(worker)) + Share(hash, ring, tasks, worker)
  {
    if tasks == [] {
      assert Share(hash, ring, tasks, worker) == [];
    } else {
      OneGetsIt(hash, ring, tasks[0], lists, worker);
      EachGetsItsShare(hash, ring, tasks[1..], DispatchedOne(hash, ring, tasks[0], lists), worker);
      Regroup(ListAt(lists, WorkerQueueKey(worker)), ShareOf(hash, ring, tasks[0], worker),
              Share(hash, ring, tasks[1..], worker));
    }
  }

  lemma Regroup<T>(a: seq<T>, b: seq<T>, c: seq<T>)
    ensures (a + b) + c == a + (b + c)
  {}

  lemma {:induction false} ShareAppend(hash: string -> int, ring: map<int, string>, tasks: seq<Task>, t: Task,
                                       worker: string)
    ensures Share(hash, ring, tasks + [t], worker) ==
            Share(hash, ring, tasks, worker) + if RouteOf(hash, ring, t.routingKey) == Some(worker) then [t] else []
  {
    if tasks == [] {
      assert tasks + [t] == [t];
      assert [t][1..] == [];
    } else {
      assert (tasks + [t])[1..] == tasks[1..] + [t];
      ShareAppend(hash, ring, tasks[1..], t, worker);
    }
  }

  /** The worker that the ring makes responsible for the task's routing key is `worker`, and has an id. */
  ghost predicate OwnedBy(hash: string -> int, ring: map<int, string>, task: Task, worker: string) {
    Owner(ring, hash(task.routingKey)) == Some(worker) && worker != ""
  }

  /** The tasks that the ring gives to `worker`: no other, none missing, in their order. */
  ghost predicate IsShare(hash: string -> int, ring: map<int, string>, tasks: seq<Task>, worker: string,
                          share: seq<Task>) {
    Selects(share, tasks, (k: nat) => k < |tasks| && OwnedBy(hash, ring, tasks[k], worker))
  }

  lemma RouteIsOwner(hash: string -> int, ring: map<int, string>, task: Task, worker: string)
    ensures RouteOf(hash, ring, task.routingKey) == Some(worker) <==> OwnedBy(hash, ring, task, worker)
  {}

  lemma ShareOneMore(hash: string -> int, ring: map<int, string>, tasks: seq<Task>, worker: string, share: seq<Task>)
    requires tasks != [] && IsShare(hash, ring, tasks[..|tasks| - 1], worker, share)
    ensures var t := tasks[|tasks| - 1];
            IsShare(hash, ring, tasks, worker, if OwnedBy(hash, ring, t, worker) then share + [t] else share)
  {
    var before := tasks[..|tasks| - 1];
    forall k: nat | k < |before| ensures before[k] == tasks[k] {}
    SelectsLast(share, tasks, (k: nat) => k < |before| && OwnedBy(hash, ring, before[k], worker),
                (k: nat) => k < |tasks| && OwnedBy(hash, ring, tasks[k], worker));
  }

  lemma ShareLast(hash: string -> int, ring: map<int, string>, tasks: seq<Task>, worker: string)
    requires tasks != []
    ensures var before, t := tasks[..|tasks| - 1], tasks[|tasks| - 1];
            Share(hash, ring, tasks, worker) ==
            if OwnedBy(hash, ring, t, worker) then Share(hash, ring, before, worker) + [t]
            else Share(hash, ring, before, worker)
  {
    var before, t := tasks[..|tasks| - 1], tasks[|tasks| - 1];
    assert tasks == before + [t];
    ShareAppend(hash, ring, before, t, worker);
    RouteIsOwner(hash, ring, t, worker);
    assert Share(hash, ring, before, worker) + [] == Share(hash, ring, before, worker);
  }

  lemma {:induction false} ShareIsShare(hash: string -> int, ring: map<int, string>, tasks: seq<Task>, worker: string)
    ensures IsShare(hash, ring, tasks, worker, Share(hash, ring, tasks, worker))
  {
    if tasks == [] {
      SelectsNone<Task>((k: nat) => k < |tasks| && OwnedBy(hash, ring, tasks[k], worker));
    } else {
      ShareIsShare(hash, ring, tasks[..|tasks| - 1], worker);
      ShareOneMore(hash, ring, tasks, worker, Share(hash, ring, tasks[..|tasks| - 1], worker));
      ShareLast(hash, ring, tasks, worker);
    }
  }

  /** The pipeline holds one push for each task, to the list of the worker it is routed to. */
  ghost predicate Planned(hash: string -> int, ring: map<int, string>, tasks: seq<Task>, pipe: seq<(string, Task)>) {
    && |pipe| == |tasks|
    && (forall i :: 0 <= i < |tasks| ==> PlannedPush(hash, ring, tasks[i], pipe[i]))
  }

  ghost predicate PlannedPush(hash: string -> int, ring: map<int, string>, task: Task, push: (string, Task)) {
    var route := RouteOf(hash, ring, task.routingKey);
    route.Some? && push == (WorkerQueueKey(route.value), task)
  }

  ghost predicate FannedOut(hash: string -> int, ring: map<int, string>, tasks: seq<Task>,
                            byWorker: map<string, seq<Task>>) {
    forall w :: ListAt(byWorker, w) == Share(hash, ring, tasks, w)
  }

  lemma PlanOneMore(hash: string -> int, ring: map<int, string>, tasks: seq<Task>, i: nat, worker: string,
                    pipe: seq<(string, Task)>, byWorker: map<string, seq<Task>>)
    requires i < |tasks| && RouteOf(hash, ring, tasks[i].routingKey) == Some(worker)
    requires Planned(hash, ring, tasks[..i], pipe) && FannedOut(hash, ring, tasks[..i], byWorker)
    ensures Planned(hash, ring, tasks[..i + 1], pipe + [(WorkerQueueKey(worker), tasks[i])])
    ensures FannedOut(hash, ring, tasks[..i + 1], Pushed(byWorker, worker, tasks[i]))
  {
    assert tasks[..i + 1] == tasks[..i] + [tasks[i]];
    forall w ensures ListAt(Pushed(byWorker, worker, tasks[i]), w) == Share(hash, ring, tasks[..i + 1], w) {
      ShareAppend(hash, ring, tasks[..i], tasks[i], w);
    }
  }

  lemma {:induction false} PipelineIsInTurn(hash: string -> int, ring: map<int, string>, tasks: seq<Task>,
                                            pipe: seq<(string, Task)>, lists: Lists)
    requires Planned(hash, ring, tasks, pipe)
    ensures PushedAll(lists, pipe) == DispatchedInTurn(hash, ring, tasks, lists)
  {
    if tasks != [] {
      assert PlannedPush(hash, ring, tasks[0], pipe[0]);
      forall i | 0 <= i < |tasks[1..]| ensures PlannedPush(hash, ring, tasks[1..][i], pipe[1..][i]) {
        assert PlannedPush(hash, ring, tasks[i + 1], pipe[i + 1]);
      }
      PipelineIsInTurn(hash, ring, tasks[1..], pipe[1..], Pushed(lists, pipe[0].0, tasks[0]));
    }
  }

  ghost predicate SomeOwner(hash: string -> int, ring: map<int, string>, task: Task) {
    exists w :: OwnedBy(hash, ring, task, w)
  }

  lemma RoutedHasOwner(hash: string -> int, ring: map<int, string>, task: Task)
    ensures RouteOf(hash, ring, task.routingKey).Some? <==> SomeOwner(hash, ring, task)
  {
    var route := RouteOf(hash, ring, task.routingKey);
    if route.Some? {
      RouteIsOwner(hash, ring, task, route.value);
      assert OwnedBy(hash, ring, task, route.value);
    }
    if w :| OwnedBy(hash, ring, task, w) { RouteIsOwner(hash, ring, task, w); }
  }

  lemma {:induction false} OtherKeysKept(hash: string -> int, ring: map<int, string>, tasks: seq<Task>, lists: Lists,
                                         key: string)
    requires !("queue:" < key)
    ensures ListAt(DispatchedInTurn(hash, ring, tasks, lists), key) == ListAt(lists, key)
  {
    if tasks != [] { OtherKeysKept(hash, ring, tasks[1..], DispatchedOne(hash, ring, tasks[0], lists), key); }
  }

  lemma SharesAre(hash: string -> int, ring: map<int, string>, tasks: seq<Task>, lists: Lists)
    ensures forall t: Task :: RouteOf(hash, ring, t.routingKey).Some? <==> SomeOwner(hash, ring, t)
    ensures forall w :: IsShare(hash, ring, tasks, w, Share(hash, ring, tasks, w))
    ensures forall w :: w != "" ==> ListAt(DispatchedInTurn(hash, ring, tasks, lists), "queue:" + w) ==
                                      ListAt(lists, "queue:" + w) + Share(hash, ring, tasks, w)
    ensures forall k :: !("queue:" < k) ==> ListAt(DispatchedInTurn(hash, ring, tasks, lists), k) == ListAt(lists, k)
  {
    forall t: Task ensures RouteOf(hash, ring, t.routingKey).Some? <==> SomeOwner(hash, ring, t) {
      RoutedHasOwner(hash, ring, t);
    }
    forall w ensures IsShare(hash, ring, tasks, w, Share(hash, ring, tasks, w)) {
      ShareIsShare(hash, ring, tasks, w);
    }
    forall w | w != "" ensures ListAt(DispatchedInTurn(hash, ring, tasks, lists), "queue:" + w) ==
                               ListAt(lists, "queue:" + w) + Share(hash, ring, tasks, w)
    {
      EachGetsItsShare(hash, ring, tasks, lists, w);
      assert WorkerQueueKey(w) == "queue:" + w;
    }
    forall k | !("queue:" < k) ensures ListAt(DispatchedInTurn(hash, ring, tasks, lists), k) == ListAt(lists, k) {
      OtherKeysKept(hash, ring, tasks, lists, k);
    }
  }

  /** The lists of the Redis master. */
  class Redis {
    var lists: Lists

    constructor ()
      ensures lists == map[]
    {
      lists := map[];
    }

    method RPush(key: string, task: Task)
      modifies this
      ensures lists == Pushed(old(lists), key, task)
    {
      lists := Pushed(lists, key, task);
    }

    /** A transactional pipeline of pushes. */
    method Execute(pipe: seq<(string, Task)>)
      modifies this
      ensures lists == PushedAll(old(lists), pipe)
    {
      lists := PushedAll(lists, pipe);
    }

    /** Takes the head of the list, or times out on an empty one. */
    method BlPop(key: string) returns (task: Option<Task>)
      modifies this
      ensures task == if ListAt(old(lists), key) == [] then None else Some(ListAt(old(lists), key)[0])
      ensures ListAt(lists, key) == if ListAt(old(lists), key) == [] then [] else ListAt(old(lists), key)[1..]
      ensures forall k :: k != key ==> ListAt(lists, k) == ListAt(old(lists), k)
    {
      var list := ListAt(lists, key);
      if list == [] {
        task := None;
      } else {
        task := Some(list[0]);
        lists := if |list| == 1 then lists - {key} else lists[key := list[1..]];
      }
    }
  }

  class TaskDispatcher {
    const ring: ConsistentHashRing
    const redis: Redis

    constructor (ring: ConsistentHashRing, redis: Redis)
      ensures this.ring == ring && this.redis == redis
    {
      this.ring, this.redis := ring, redis;
    }

    method Dispatch(task: Task) returns (worker: Result<string, DispatchError>)
      requires ring.Valid()
      modifies redis
      ensures var route := RouteOf(ring.hash, ring.ring, task.routingKey);
              match route
              case None => worker == Err(NoWorkersAvailable) && redis.lists == old(redis.lists)
              case Some(w) => worker == Ok(w) && redis.lists == Pushed(old(redis.lists), WorkerQueueKey(w), task)
      ensures var owner := Owner(ring.ring, ring.hash(task.routingKey));
              && (worker.Err? <==> owner == None || owner == Some(""))
              && (worker.Ok? ==> owner == Some(worker.value))
      ensures forall k :: ListAt(redis.lists, k) == ListAt(old(redis.lists), k) +
                            if worker.Ok? && k == "queue:" + worker.value then [task] else []
    {
      var owner := ring.GetWorker(task.routingKey);
      if owner == None || owner == Some("") {
        return Err(NoWorkersAvailable);
      }
      redis.RPush(WorkerQueueKey(owner.value), task);
      worker := Ok(owner.value);
    }

    /** Enqueues what successive dispatches would, or nothing at all. */
    method DispatchMany(tasks: seq<Task>) returns (byWorker: Result<map<string, seq<Task>>, DispatchError>)
      requires ring.Valid()
      modifies redis
      ensures byWorker.Ok? <==> forall t :: t in tasks ==> RouteOf(ring.hash, ring.ring, t.routingKey).Some?
      ensures byWorker.Err? ==> redis.lists == old(redis.lists)
      ensures byWorker.Ok? ==> redis.lists == DispatchedInTurn(ring.hash, ring.ring, tasks, old(redis.lists))
      ensures byWorker.Ok? ==> FannedOut(ring.hash, ring.ring, tasks, byWorker.value)
      ensures byWorker.Ok? <==> forall t :: t in tasks ==> SomeOwner(ring.hash, ring.ring, t)
      ensures byWorker.Ok? ==> forall w :: IsShare(ring.hash, ring.ring, tasks, w, ListAt(byWorker.value, w))
      ensures byWorker.Ok? ==> forall w :: w != "" ==>
                ListAt(redis.lists, "queue:" + w) == ListAt(old(redis.lists), "queue:" + w) + ListAt(byWorker.value, w)
      ensures forall k :: !("queue:" < k) ==> ListAt(redis.lists, k) == ListAt(old(redis.lists), k)
    {
      SharesAre(ring.hash, ring.ring, tasks, redis.lists);
      var fanOut: map<string, seq<Task>> := map[];
      var pipe: seq<(string, Task)> := [];
      var i := 0;
      while i < |tasks|
        invariant 0 <= i <= |tasks|
        invariant redis.lists == old(redis.lists)
        invariant Planned(ring.hash, ring.ring, tasks[..i], pipe)
        invariant FannedOut(ring.hash, ring.ring, tasks[..i], fanOut)
      {
        var owner := ring.GetWorker(tasks[i].routingKey);
        if owner == None || owner == Some("") {
          assert tasks[i] in tasks;
          return Err(NoWorkersAvailable);
        }
        PlanOneMore(ring.hash, ring.ring, tasks, i, owner.value, pipe, fanOut);
        fanOut := Pushed(fanOut, owner.value, tasks[i]);
        pipe := pipe + [(WorkerQueueKey(owner.value), tasks[i])];
        i := i + 1;
      }
      assert tasks[..i] == tasks;
      forall t | t in tasks ensures RouteOf(ring.hash, ring.ring, t.routingKey).Some? {
        var j :| 0 <= j < |tasks| && tasks[j] == t;
        assert PlannedPush(ring.hash, ring.ring, tasks[j], pipe[j]);
      }
      PipelineIsInTurn(ring.hash, ring.ring, tasks, pipe, redis.lists);
      redis.Execute(pipe);
      byWorker := Ok(fanOut);
    }
  }

  class WorkerTaskQueue {
    const redis: Redis
    const key: string

    constructor (redis: Redis, worker: string)
      ensures this.redis == redis && key == WorkerQueueKey(worker) == "queue:" + worker
    {
      this.redis, key := redis, WorkerQueueKey(worker);
    }

    /** Removes the oldest task of this worker's list and touches no other list. */
    method Pop() returns (task: Option<Task>)
      modifies redis
      ensures task == if ListAt(old(redis.lists), key) == [] then None else Some(ListAt(old(redis.lists), key)[0])
      ensures ListAt(redis.lists, key) == if task.None? then [] else ListAt(old(redis.lists), key)[1..]
      ensures forall k :: k != key ==> ListAt(redis.lists, k) == ListAt(old(redis.lists), k)
    {
      task := redis.BlPop(key);
    }
  }
}
