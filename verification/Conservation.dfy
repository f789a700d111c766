/** What every run of the pool conserves: no task is lost, duplicated or reordered, except that a
    crashed worker takes the one task in its hand with it. */
module Conservation {
  import opened Options
  import opened IngestStores
  import opened Pool
  import opened PoolInvariant

  // ----- The log holds exactly what was dispatched -----

  lemma {:induction false} EnqueueAllLogs(cfg: Config, tasks: seq<Task>, s: Pool)
    requires forall t :: t in tasks ==> Route(cfg, s.ring, t).Some?
    ensures Logged(EnqueueAll(cfg, tasks, s).log) == Logged(s.log) + tasks
    ensures EnqueueAll(cfg, tasks, s).ring == s.ring && EnqueueAll(cfg, tasks, s).stores == s.stores
    ensures EnqueueAll(cfg, tasks, s).readers == s.readers
  {
    if tasks != [] {
      var t := Enqueue(cfg, tasks[0], s);
      assert Logged(t.log) == Logged(s.log) + [tasks[0]];
      EnqueueAllLogs(cfg, tasks[1..], t);
      assert tasks == [tasks[0]] + tasks[1..];
    } else {
      assert tasks == [];
    }
  }

  lemma Regroup<T>(a: seq<T>, b: seq<T>, c: seq<T>)
    ensures (a + b) + c == a + (b + c)
  {}

  lemma StepLogs(cfg: Config, step: Step, s: Pool)
    requires Enabled(cfg, step, s)
    ensures Logged(Next(cfg, step, s).log) == Logged(s.log) + TasksOf(step)
  {
    match step
    case DispatchMany(ts) => EnqueueAllLogs(cfg, ts, s);
    case _ =>
  }

  lemma {:induction false} RunLogs(cfg: Config, steps: seq<Step>, s: Pool)
    requires Legal(cfg, steps, s)
    ensures Logged(Run(cfg, steps, s).log) == Logged(s.log) + Dispatched(steps)
  {
    if steps != [] {
      var t := Next(cfg, steps[0], s);
      StepLogs(cfg, steps[0], s);
      RunLogs(cfg, steps[1..], t);
      Regroup(Logged(s.log), TasksOf(steps[0]), Dispatched(steps[1..]));
    } else {
      assert Dispatched(steps) == [];
    }
  }

  // ----- Conservation -----

  /** Ticket `n` occurs once, in the queue or among the popped of the worker it was routed to, and its
      outcome says where. */
  ghost predicate InOnePlace(s: Pool, n: nat)
    requires n < |s.log|
  {
    var x := At(s, s.log[n].worker);
    && multiset(x.queue)[n] + multiset(x.popped)[n] == 1
    && (forall v :: v != s.log[n].worker ==> n !in At(s, v).queue && n !in At(s, v).popped)
    && (s.log[n].outcome == Queued <==> n in x.queue)
    && (s.log[n].outcome == Running <==> x.hand == Some(n))
    && (Resolved(s.log[n].outcome) <==> n in x.popped && x.hand != Some(n))
  }

  /** Every dispatched task is in exactly one place, once: waiting in the queue it was routed to,
      in the hand of that queue's worker, or resolved by it. */
  lemma Conserved(cfg: Config, steps: seq<Step>, ring: map<int, string>, stores: Stores, n: nat)
    requires Legal(cfg, steps, Fresh(ring, stores))
    ensures var s := Run(cfg, steps, Fresh(ring, stores));
            && Logged(s.log) == Dispatched(steps)
            && (n < |s.log| ==> InOnePlace(s, n))
  {
    var s := Run(cfg, steps, Fresh(ring, stores));
    RunLogs(cfg, steps, Fresh(ring, stores));
    assert Logged(s.log) == Dispatched(steps);
    RunKeepsInv(cfg, steps, Fresh(ring, stores));
    if n < |s.log| { OnePlace(s, n); }
  }

  lemma OnePlace(s: Pool, n: nat)
    requires Inv(s) && n < |s.log|
    ensures InOnePlace(s, n)
  {
    var w := s.log[n].worker;
    assert WorkerOk(s.log, w, At(s, w));
    OutcomeTellsPlace(s.log, w, At(s, w), n);
    forall v | v != w ensures n !in At(s, v).queue && n !in At(s, v).popped {
      assert WorkerOk(s.log, v, At(s, v));
      WorkerTickets(s.log, v, At(s, v));
    }
  }

  lemma OutcomeTellsPlace(log: seq<Entry>, name: string, x: Worker, n: nat)
    requires WorkerOk(log, name, x) && n < |log| && log[n].worker == name
    ensures multiset(x.queue)[n] + multiset(x.popped)[n] == 1
    ensures log[n].outcome == Queued <==> n in x.queue
    ensures log[n].outcome == Running <==> x.hand == Some(n)
    ensures Resolved(log[n].outcome) <==> n in x.popped && x.hand != Some(n)
  {
    WorkerTickets(log, name, x);
    OccursOnce(x.popped, n);
    OccursOnce(x.queue, n);
  }

  lemma {:induction false} OccursOnce(tickets: seq<nat>, n: nat)
    requires forall i, j :: 0 <= i < j < |tickets| ==> tickets[i] < tickets[j]
    ensures multiset(tickets)[n] == if n in tickets then 1 else 0
  {
    if tickets != [] {
      OccursOnce(tickets[1..], n);
      assert tickets == [tickets[0]] + tickets[1..];
      assert forall i :: 0 <= i < |tickets[1..]| ==> tickets[0] < tickets[1..][i];
    }
  }

  /** Strict FIFO: what a worker has popped and what still waits in its list are, one after the
      other, the tasks routed to it, in dispatch order. */
  lemma Fifo(cfg: Config, steps: seq<Step>, ring: map<int, string>, stores: Stores, worker: string)
    requires Legal(cfg, steps, Fresh(ring, stores))
    ensures var s := Run(cfg, steps, Fresh(ring, stores));
            && At(s, worker).popped + At(s, worker).queue == Routed(s.log, worker)
            && IsPrefix(At(s, worker).popped, Routed(s.log, worker))
  {
    var s := Run(cfg, steps, Fresh(ring, stores));
    RunKeepsInv(cfg, steps, Fresh(ring, stores));
    assert WorkerOk(s.log, worker, At(s, worker));
  }

  // ----- Losses -----

  function LostTickets(s: Pool): set<nat> {
    set n: nat | n < |s.log| && s.log[n].outcome == Lost
  }

  function CrashedWorkers(s: Pool): set<string> {
    set w | w in s.workers && s.workers[w].crashed
  }

  lemma {:induction false} InjectionSize<A, B>(a: set<A>, b: set<B>, f: A -> B)
    requires forall x :: x in a ==> f(x) in b
    requires forall x, y :: x in a && y in a && x != y ==> f(x) != f(y)
    ensures |a| <= |b|
  {
    if a != {} {
      var x := AnyOf(a);
      InjectionSize(a - {x}, b - {f(x)}, f);
    }
  }

  /** At most one task is lost for each crashed worker. */
  lemma LossesAreCrashes(cfg: Config, steps: seq<Step>, ring: map<int, string>, stores: Stores)
    requires Legal(cfg, steps, Fresh(ring, stores))
    ensures var s := Run(cfg, steps, Fresh(ring, stores));
            |LostTickets(s)| <= |CrashedWorkers(s)|
  {
    var s := Run(cfg, steps, Fresh(ring, stores));
    RunKeepsInv(cfg, steps, Fresh(ring, stores));
    var home := (n: nat) => if n < |s.log| then s.log[n].worker else "";
    forall n | n in LostTickets(s) ensures home(n) in CrashedWorkers(s) {
      LostIsLast(s, n);
    }
    forall n, m | n in LostTickets(s) && m in LostTickets(s) && n != m ensures home(n) != home(m) {
      LostIsLast(s, n);
      LostIsLast(s, m);
    }
    InjectionSize(LostTickets(s), CrashedWorkers(s), home);
  }

  lemma LostIsLast(s: Pool, n: nat)
    requires Inv(s) && n < |s.log| && s.log[n].outcome == Lost
    ensures var x := At(s, s.log[n].worker);
            x.crashed && x.popped != [] && x.popped[|x.popped| - 1] == n
  {
    var x := At(s, s.log[n].worker);
    assert WorkerOk(s.log, s.log[n].worker, x);
    WorkerTickets(s.log, s.log[n].worker, x);
  }
}
