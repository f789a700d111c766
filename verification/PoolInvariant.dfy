/** The bookkeeping that every run of the pool keeps: lists, hands and outcomes agree with the log. */
module PoolInvariant {
  import opened Options
  import opened IngestStores
  import opened Pool

  predicate Resolved(outcome: Outcome) {
    outcome in {Done, Failed, Lost}
  }

  ghost predicate WorkerOk(log: seq<Entry>, name: string, x: Worker) {
    && Routed(log, name) == x.popped + x.queue
    && (x.hand.Some? ==> !x.crashed && x.popped != [] && x.hand.value == x.popped[|x.popped| - 1])
    && (forall i :: 0 <= i < |x.popped| && x.popped[i] < |log| ==>
          if x.hand == Some(x.popped[i]) then log[x.popped[i]].outcome == Running
          else Resolved(log[x.popped[i]].outcome))
    && (forall i :: 0 <= i < |x.queue| && x.queue[i] < |log| ==>
          log[x.queue[i]].outcome == Queued && log[x.queue[i]].progress == 0)
    && (forall i :: 0 <= i < |x.popped| && x.popped[i] < |log| && log[x.popped[i]].outcome == Lost ==>
          x.crashed && i == |x.popped| - 1)
  }

  predicate EntryOk(e: Entry) {
    e.progress <= Commits(e.task) && (e.outcome == Done ==> e.progress == Commits(e.task))
  }

  ghost predicate Inv(s: Pool) {
    && (forall w :: WorkerOk(s.log, w, At(s, w)))
    && (forall n :: 0 <= n < |s.log| ==> EntryOk(s.log[n]))
  }

  lemma {:induction false} WorkerTickets(log: seq<Entry>, name: string, x: Worker)
    requires WorkerOk(log, name, x)
    ensures forall i :: 0 <= i < |x.popped| ==> x.popped[i] < |log| && log[x.popped[i]].worker == name
    ensures forall i :: 0 <= i < |x.queue| ==> x.queue[i] < |log| && log[x.queue[i]].worker == name
    ensures forall i, j :: 0 <= i < j < |x.popped| ==> x.popped[i] < x.popped[j]
    ensures forall i, j :: 0 <= i < |x.popped| && 0 <= j < |x.queue| ==> x.popped[i] < x.queue[j]
    ensures forall i, j :: 0 <= i < j < |x.queue| ==> x.queue[i] < x.queue[j]
    ensures forall n :: 0 <= n < |log| && log[n].worker == name ==> n in x.popped || n in x.queue
  {
    RoutedTickets(log, name);
    forall n | 0 <= n < |log| && log[n].worker == name ensures n in Routed(log, name) {
      RoutedAll(log, name, n);
    }
    var all := Routed(log, name);
    var k := |x.popped|;
    assert forall i :: 0 <= i < |x.popped| ==> all[i] == x.popped[i];
    assert forall i :: 0 <= i < |x.queue| ==> all[k + i] == x.queue[i];
  }

  /** Changing an entry of another worker's keeps this worker's bookkeeping. */
  lemma {:induction false} OtherWorkerOk(log: seq<Entry>, n: nat, e: Entry, name: string, x: Worker)
    requires WorkerOk(log, name, x)
    requires n < |log| && e.worker == log[n].worker != name
    ensures WorkerOk(log[n := e], name, x)
  {
    WorkerTickets(log, name, x);
    RoutedUnchanged(log, n, e, name);
  }

  lemma {:induction false} LongerLogOk(log: seq<Entry>, e: Entry, name: string, x: Worker)
    requires WorkerOk(log, name, x) && e.worker != name
    ensures WorkerOk(log + [e], name, x)
  {
    WorkerTickets(log, name, x);
    RoutedGrows(log, e, name);
  }

  lemma {:induction false} PushedOk(log: seq<Entry>, e: Entry, name: string, x: Worker)
    requires WorkerOk(log, name, x) && e.worker == name && e.outcome == Queued && e.progress == 0
    ensures WorkerOk(log + [e], name, x.(queue := x.queue + [|log|]))
  {
    WorkerTickets(log, name, x);
    RoutedGrows(log, e, name);
    assert x.popped + x.queue + [|log|] == x.popped + (x.queue + [|log|]);
  }

  lemma EnqueueKeepsInv(cfg: Config, task: Task, s: Pool)
    requires Inv(s) && Route(cfg, s.ring, task).Some?
    ensures Inv(Enqueue(cfg, task, s))
  {
    var t := Enqueue(cfg, task, s);
    var w := Route(cfg, s.ring, task).value;
    forall v ensures WorkerOk(t.log, v, At(t, v)) {
      assert WorkerOk(s.log, v, At(s, v));
      if v == w {
        PushedOk(s.log, t.log[|s.log|], v, At(s, v));
      } else {
        LongerLogOk(s.log, t.log[|s.log|], v, At(s, v));
      }
    }
  }

  lemma {:induction false} EnqueueAllKeepsInv(cfg: Config, tasks: seq<Task>, s: Pool)
    requires Inv(s) && forall t :: t in tasks ==> Route(cfg, s.ring, t).Some?
    ensures Inv(EnqueueAll(cfg, tasks, s))
  {
    if tasks != [] {
      EnqueueKeepsInv(cfg, tasks[0], s);
      EnqueueAllKeepsInv(cfg, tasks[1..], Enqueue(cfg, tasks[0], s));
    }
  }

  lemma {:induction false} PoppedOk(log: seq<Entry>, name: string, x: Worker)
    requires WorkerOk(log, name, x)
    requires !x.crashed && x.hand == None && x.queue != [] && x.queue[0] < |log|
    ensures var n := x.queue[0];
            WorkerOk(log[n := log[n].(outcome := Running)], name, Worker(x.queue[1..], Some(n), false, x.popped + [n]))
  {
    var n := x.queue[0];
    WorkerTickets(log, name, x);
    RoutedUnchanged(log, n, log[n].(outcome := Running), name);
    assert x.popped + x.queue == (x.popped + [n]) + x.queue[1..];
  }

  /** A worker that changes its own entry and its own bookkeeping disturbs no other. */
  lemma UpdateKeepsInv(s: Pool, w: string, x: Worker, n: nat, e: Entry)
    requires Inv(s) && n < |s.log| && s.log[n].worker == w == e.worker && EntryOk(e)
    requires WorkerOk(s.log[n := e], w, x)
    ensures Inv(s.(log := s.log[n := e], workers := s.workers[w := x]))
  {
    var t := s.(log := s.log[n := e], workers := s.workers[w := x]);
    forall v ensures WorkerOk(t.log, v, At(t, v)) {
      if v != w {
        assert WorkerOk(s.log, v, At(s, v));
        OtherWorkerOk(s.log, n, e, v, At(s, v));
      }
    }
  }

  lemma SameInv(s: Pool, t: Pool)
    requires Inv(s) && t.log == s.log && t.workers == s.workers
    ensures Inv(t)
  {
    forall w ensures WorkerOk(t.log, w, At(t, w)) {
      assert WorkerOk(s.log, w, At(s, w));
    }
  }

  lemma PopKeepsInv(cfg: Config, w: string, s: Pool)
    requires Inv(s) && Enabled(cfg, Pop(w), s)
    ensures Inv(Next(cfg, Pop(w), s))
  {
    var x := At(s, w);
    assert WorkerOk(s.log, w, x);
    WorkerTickets(s.log, w, x);
    PoppedOk(s.log, w, x);
    assert EntryOk(s.log[x.queue[0]]);
    UpdateKeepsInv(s, w, Worker(x.queue[1..], Some(x.queue[0]), false, x.popped + [x.queue[0]]), x.queue[0],
                   s.log[x.queue[0]].(outcome := Running));
  }

  lemma {:induction false} WroteOk(log: seq<Entry>, name: string, x: Worker)
    requires WorkerOk(log, name, x) && x.hand.Some? && x.hand.value < |log|
    ensures WorkerOk(log[x.hand.value := log[x.hand.value].(progress := log[x.hand.value].progress + 1)], name, x)
  {
    WorkerTickets(log, name, x);
    RoutedUnchanged(log, x.hand.value, log[x.hand.value].(progress := log[x.hand.value].progress + 1), name);
  }

  lemma WroteKeepsInv(s: Pool, w: string, t: Pool)
    requires Inv(s) && Holds(s, w)
    requires var n := At(s, w).hand.value;
             && s.log[n].progress < Commits(s.log[n].task)
             && t.log == s.log[n := s.log[n].(progress := s.log[n].progress + 1)] && t.workers == s.workers
    ensures Inv(t)
  {
    var n := At(s, w).hand.value;
    assert WorkerOk(s.log, w, At(s, w));
    WorkerTickets(s.log, w, At(s, w));
    WroteOk(s.log, w, At(s, w));
    assert EntryOk(s.log[n]);
    UpdateKeepsInv(s, w, At(s, w), n, t.log[n]);
    assert s.workers[w := At(s, w)] == s.workers;
    SameInv(s.(log := t.log), t);
  }

  lemma WriteKeepsInv(cfg: Config, w: string, s: Pool)
    requires Inv(s) && Enabled(cfg, Write(w), s)
    ensures Inv(Next(cfg, Write(w), s))
  {
    WroteKeepsInv(s, w, Next(cfg, Write(w), s));
  }

  lemma {:induction false} FinishedOk(log: seq<Entry>, name: string, x: Worker, outcome: Outcome)
    requires WorkerOk(log, name, x) && x.hand.Some? && x.hand.value < |log| && Resolved(outcome)
    ensures WorkerOk(log[x.hand.value := log[x.hand.value].(outcome := outcome)], name,
                     x.(hand := None, crashed := outcome == Lost))
  {
    WorkerTickets(log, name, x);
    RoutedUnchanged(log, x.hand.value, log[x.hand.value].(outcome := outcome), name);
  }

  lemma FinishKeepsInv(s: Pool, w: string, outcome: Outcome)
    requires Inv(s) && Holds(s, w) && Resolved(outcome)
    requires outcome == Done ==> s.log[At(s, w).hand.value].progress == Commits(s.log[At(s, w).hand.value].task)
    ensures Inv(Finish(s, w, outcome))
  {
    var x := At(s, w);
    assert WorkerOk(s.log, w, x);
    WorkerTickets(s.log, w, x);
    FinishedOk(s.log, w, x, outcome);
    assert EntryOk(s.log[x.hand.value]);
    UpdateKeepsInv(s, w, x.(hand := None, crashed := outcome == Lost), x.hand.value,
                   s.log[x.hand.value].(outcome := outcome));
  }

  lemma {:induction false} IdleCrashOk(log: seq<Entry>, name: string, x: Worker)
    requires WorkerOk(log, name, x) && !(x.hand.Some? && x.hand.value < |log|)
    ensures WorkerOk(log, name, x.(crashed := true))
  {
    WorkerTickets(log, name, x);
    assert x.hand == None;
  }

  lemma IdleCrashKeepsInv(w: string, s: Pool)
    requires Inv(s) && !Holds(s, w)
    ensures Inv(s.(workers := s.workers[w := At(s, w).(crashed := true)]))
  {
    var t := s.(workers := s.workers[w := At(s, w).(crashed := true)]);
    forall v ensures WorkerOk(t.log, v, At(t, v)) {
      assert WorkerOk(s.log, v, At(s, v));
      if v == w { IdleCrashOk(s.log, w, At(s, w)); }
    }
  }

  lemma StepKeepsInv(cfg: Config, step: Step, s: Pool)
    requires Inv(s) && Enabled(cfg, step, s)
    ensures Inv(Next(cfg, step, s))
  {
    match step
    case Dispatch(t) => EnqueueKeepsInv(cfg, t, s);
    case DispatchMany(ts) => EnqueueAllKeepsInv(cfg, ts, s);
    case Pop(w) => PopKeepsInv(cfg, w, s);
    case Write(w) => WriteKeepsInv(cfg, w, s);
    case Return(w) => FinishKeepsInv(s, w, Done);
    case Raise(w) => FinishKeepsInv(s, w, Failed);
    case Crash(w) => if Holds(s, w) { FinishKeepsInv(s, w, Lost); } else { IdleCrashKeepsInv(w, s); }
    case _ => SameInv(s, Next(cfg, step, s));
  }

  lemma FreshInv(ring: map<int, string>, stores: Stores)
    ensures Inv(Fresh(ring, stores))
  {}

  lemma {:induction false} RunKeepsInv(cfg: Config, steps: seq<Step>, s: Pool)
    requires Inv(s) && Legal(cfg, steps, s)
    ensures Inv(Run(cfg, steps, s))
  {
    if steps != [] {
      StepKeepsInv(cfg, steps[0], s);
      RunKeepsInv(cfg, steps[1..], Next(cfg, steps[0], s));
    }
  }
}
