/** Runs with failures, crashes, ring changes and retries: at-least-once delivery acts once. */
module Retries {
  import opened Options
  import opened IngestStores
  import opened Pool
  import opened PoolInvariant
  import opened Serializability
  import Conservation

  /** Records an attempt at `e.task` with the furthest earlier attempt at it. */
  function Merge(log: seq<Entry>, e: Entry): seq<Entry> {
    if log == [] then [e]
    else if log[0].task == e.task then
      [if log[0].progress < e.progress then log[0].(progress := e.progress) else log[0]] + log[1..]
    else [log[0]] + Merge(log[1..], e)
  }

  function Merged(log: seq<Entry>): seq<Entry> {
    if log == [] then [] else Merge(Merged(log[..|log| - 1]), log[|log| - 1])
  }

  lemma {:induction false} MergeTasks(log: seq<Entry>, e: Entry)
    ensures Logged(Merge(log, e)) == if e.task in Logged(log) then Logged(log) else Logged(log) + [e.task]
  {
    if log != [] {
      MergeTasks(log[1..], e);
      assert Logged(log) == [log[0].task] + Logged(log[1..]);
      var m := Merge(log, e);
      assert Logged(m) == [m[0].task] + Logged(m[1..]);
    }
  }

  lemma {:induction false} MergedTasks(log: seq<Entry>)
    ensures Logged(Merged(log)) == FirstOccurrences(Logged(log))
  {
    if log != [] {
      var n := |log| - 1;
      MergedTasks(log[..n]);
      MergeTasks(Merged(log[..n]), log[n]);
      FirstOccurrencesOneMore(Logged(log[..n]), log[n].task);
      assert Logged(log) == Logged(log[..n]) + [log[n].task];
    }
  }

  /** No merged attempt is less far than `k` for `t` once some attempt was that far. */
  lemma {:induction false} MergeKeepsProgress(log: seq<Entry>, e: Entry, t: Task, k: nat)
    requires (e.task == t && e.progress >= k) || AtLeast(log, t, k)
    ensures AtLeast(Merge(log, e), t, k)
  {
    if log == [] {
      assert Merge(log, e)[0] == e;
    } else if log[0].task == e.task {
      var m := Merge(log, e);
      if AtLeast(log, t, k) {
        var i :| 0 <= i < |log| && log[i].task == t && log[i].progress >= k;
        assert m[i].task == t && m[i].progress >= k;
      } else {
        assert m[0].task == t && m[0].progress >= k;
      }
    } else {
      var m := Merge(log, e);
      if AtLeast(log, t, k) {
        var i :| 0 <= i < |log| && log[i].task == t && log[i].progress >= k;
        if i == 0 {
          assert m[0] == log[0];
        } else {
          assert log[1..][i - 1] == log[i];
          MergeKeepsProgress(log[1..], e, t, k);
          var j :| 0 <= j < |m[1..]| && m[1..][j].task == t && m[1..][j].progress >= k;
          assert m[j + 1] == m[1..][j];
        }
      } else {
        MergeKeepsProgress(log[1..], e, t, k);
        var j :| 0 <= j < |m[1..]| && m[1..][j].task == t && m[1..][j].progress >= k;
        assert m[j + 1] == m[1..][j];
      }
    }
  }

  ghost predicate AtLeast(log: seq<Entry>, t: Task, k: nat) {
    exists i :: 0 <= i < |log| && log[i].task == t && log[i].progress >= k
  }

  lemma {:induction false} MergedKeepsProgress(log: seq<Entry>, t: Task, k: nat)
    requires AtLeast(log, t, k)
    ensures AtLeast(Merged(log), t, k)
  {
    var n := |log| - 1;
    var i :| 0 <= i < |log| && log[i].task == t && log[i].progress >= k;
    if i < n {
      assert log[..n][i] == log[i];
      MergedKeepsProgress(log[..n], t, k);
    }
    MergeKeepsProgress(Merged(log[..n]), log[n], t, k);
  }

  ghost predicate AllCompatible(log: seq<Entry>) {
    forall i, j :: 0 <= i < |log| && 0 <= j < |log| && log[i].progress > 0 && log[j].progress > 0 ==>
      Compatible(log[i].task, log[j].task)
  }

  lemma {:induction false} MergeReplays(embed: string -> Embedding, log: seq<Entry>, e: Entry, s: Stores)
    requires e.progress > 0 ==> Passes(e.task, log)
    ensures Replay(embed, Merge(log, e), s) == Advance(embed, e.task, e.progress, Replay(embed, log, s))
  {
    if log == [] {
      assert Merge(log, e)[1..] == [];
    } else {
      var m := Merge(log, e);
      var t, k := log[0].task, log[0].progress;
      var after := Advance(embed, t, k, s);
      if t == e.task {
        assert m[1..] == log[1..];
        Absorbed(embed, t, e.progress, k, s);
        if e.progress > 0 { AdvancePasses(embed, t, e.progress, log[1..], after); }
      } else {
        assert m[0] == log[0] && m[1..] == Merge(log[1..], e);
        MergeReplays(embed, log[1..], e, after);
      }
    }
  }

  /** The entries of a merged log come from entries of the log. */
  lemma {:induction false} MergePasses(log: seq<Entry>, e: Entry, t: Task)
    requires Passes(t, log) && (e.progress > 0 ==> Compatible(t, e.task))
    ensures Passes(t, Merge(log, e))
  {
    if log != [] && log[0].task != e.task {
      MergePasses(log[1..], e, t);
    }
  }

  lemma {:induction false} MergedPasses(log: seq<Entry>, t: Task)
    requires Passes(t, log)
    ensures Passes(t, Merged(log))
  {
    if log != [] {
      var n := |log| - 1;
      MergedPasses(log[..n], t);
      MergePasses(Merged(log[..n]), log[n], t);
    }
  }

  lemma {:induction false} MergedReplays(embed: string -> Embedding, log: seq<Entry>, s: Stores)
    requires AllCompatible(log)
    ensures Replay(embed, Merged(log), s) == Replay(embed, log, s)
  {
    if log != [] {
      var n := |log| - 1;
      MergedReplays(embed, log[..n], s);
      ReplayAppend(embed, log[..n], log[n], s);
      assert log[..n] + [log[n]] == log;
      if log[n].progress > 0 {
        assert Passes(log[n].task, log[..n]);
        MergedPasses(log[..n], log[n].task);
      }
      MergeReplays(embed, Merged(log[..n]), log[n], s);
    }
  }

  /** Some attempt at each dispatched task has returned. */
  ghost predicate EveryTaskReturned(s: Pool) {
    forall n :: 0 <= n < |s.log| ==> Returned(s, s.log[n].task)
  }

  ghost predicate Returned(s: Pool, t: Task) {
    exists m :: 0 <= m < |s.log| && s.log[m].task == t && s.log[m].outcome == Done
  }

  lemma SameTaskSameEntry(log: seq<Entry>, i: nat, j: nat)
    requires Distinct(Logged(log)) && i < |log| && j < |log| && log[i].task == log[j].task
    ensures i == j
  {
    assert Logged(log)[i] == Logged(log)[j];
  }

  /** Retries make at-least-once delivery exactly-once in effect: whatever failed, crashed, was
      rerouted or ran twice, and in whatever order, if some attempt at each task returned then the
      stores are those of a sequential ingest of each task once. */
  lemma RetriesActOnce(cfg: Config, steps: seq<Step>, ring: map<int, string>, stores: Stores)
    requires Consistent(Elements(Dispatched(steps))) && Legal(cfg, steps, Fresh(ring, stores))
    requires EveryTaskReturned(Run(cfg, steps, Fresh(ring, stores)))
    ensures Shown(Scores(steps), Run(cfg, steps, Fresh(ring, stores)).stores) ==
            ProcessAll(cfg.embed, FirstOccurrences(Dispatched(steps)), Shown(Scores(steps), stores))
  {
    var s := Run(cfg, steps, Fresh(ring, stores));
    var base := Shown(Scores(steps), stores);
    Conservation.RunLogs(cfg, steps, Fresh(ring, stores));
    assert Logged(Fresh(ring, stores).log) == [];
    assert Logged(s.log) == Dispatched(steps);
    ConsistentIsColocated(s.log);
    RunsAreSerializable(cfg, steps, ring, stores);
    FreshInv(ring, stores);
    RunKeepsInv(cfg, steps, Fresh(ring, stores));
    ConsistentLog(s);
    MergedReplays(cfg.embed, s.log, base);
    MergedTasks(s.log);
    MergedComplete(s);
    CompleteReplay(cfg.embed, Merged(s.log), base);
  }

  lemma ConsistentLog(s: Pool)
    requires Inv(s) && Consistent(Elements(Logged(s.log)))
    ensures AllCompatible(s.log)
  {
    forall i, j | 0 <= i < |s.log| && 0 <= j < |s.log| && s.log[i].progress > 0 && s.log[j].progress > 0
      ensures Compatible(s.log[i].task, s.log[j].task)
    {
      assert EntryOk(s.log[i]) && EntryOk(s.log[j]);
      assert Logged(s.log)[i] in Elements(Logged(s.log)) && Logged(s.log)[j] in Elements(Logged(s.log));
    }
  }

  lemma {:induction false} MergedBounded(log: seq<Entry>)
    requires forall n :: 0 <= n < |log| ==> log[n].progress <= Commits(log[n].task)
    ensures forall n :: 0 <= n < |Merged(log)| ==> Merged(log)[n].progress <= Commits(Merged(log)[n].task)
  {
    if log != [] {
      var n := |log| - 1;
      MergedBounded(log[..n]);
      MergeBounded(Merged(log[..n]), log[n]);
    }
  }

  lemma {:induction false} MergeBounded(log: seq<Entry>, e: Entry)
    requires e.progress <= Commits(e.task)
    requires forall n :: 0 <= n < |log| ==> log[n].progress <= Commits(log[n].task)
    ensures forall n :: 0 <= n < |Merge(log, e)| ==> Merge(log, e)[n].progress <= Commits(Merge(log, e)[n].task)
  {
    if log != [] { MergeBounded(log[1..], e); }
  }

  lemma MergedComplete(s: Pool)
    requires Inv(s) && EveryTaskReturned(s)
    ensures forall n :: 0 <= n < |Merged(s.log)| ==> Merged(s.log)[n].progress == Commits(Merged(s.log)[n].task)
  {
    var merged := Merged(s.log);
    forall n | 0 <= n < |s.log| ensures s.log[n].progress <= Commits(s.log[n].task) {
      assert EntryOk(s.log[n]);
    }
    MergedBounded(s.log);
    MergedTasks(s.log);
    FirstOccurrencesKeep(Logged(s.log));
    forall n | 0 <= n < |merged| ensures merged[n].progress == Commits(merged[n].task) {
      var t := merged[n].task;
      assert Logged(merged)[n] == t;
      assert t in Logged(s.log);
      var i :| 0 <= i < |Logged(s.log)| && Logged(s.log)[i] == t;
      assert Returned(s, s.log[i].task);
      var m :| 0 <= m < |s.log| && s.log[m].task == t && s.log[m].outcome == Done;
      assert EntryOk(s.log[m]);
      assert AtLeast(s.log, t, Commits(t));
      MergedKeepsProgress(s.log, t, Commits(t));
      var k :| 0 <= k < |merged| && merged[k].task == t && merged[k].progress >= Commits(t);
      SameTaskSameEntry(merged, n, k);
    }
  }
}
