/** A worker process: its ingest handler, which commits to the stores step by step, and the loop
    that feeds it. */
module IngestWorker {
  import opened Options
  import opened IngestStores
  import opened Dispatcher
  import opened Embedder
  import Serializability

  function Texts(clauses: seq<Clause>): seq<string> {
    seq(|clauses|, i requires 0 <= i < |clauses| => clauses[i].text)
  }

  /** Clauses paired with vectors, as far as both go: the surplus of the longer list is dropped. */
  function Records(contractId: string, clauses: seq<Clause>, vectors: seq<Embedding>): seq<(string, Vector)> {
    var n := if |clauses| <= |vectors| then |clauses| else |vectors|;
    seq(n, i requires 0 <= i < n => (clauses[i].id, Vector(vectors[i], contractId, clauses[i].category)))
  }

  function PutRecords(vectors: map<string, Vector>, records: seq<(string, Vector)>): map<string, Vector> {
    if records == [] then vectors
    else PutRecords(vectors, records[..|records| - 1])[records[|records| - 1].0 := records[|records| - 1].1]
  }

  /** Re-pairing gives every clause the embedding of its own text. */
  lemma {:induction false} RecordsAreClauses(vectors: map<string, Vector>, embed: string -> Embedding,
                                             contractId: string, clauses: seq<Clause>)
    ensures PutRecords(vectors, Records(contractId, clauses, MapSeq(embed, Texts(clauses)))) ==
            PutVectors(vectors, embed, contractId, clauses)
  {
    if clauses != [] {
      var n := |clauses| - 1;
      var records := Records(contractId, clauses, MapSeq(embed, Texts(clauses)));
      RecordsAreClauses(vectors, embed, contractId, clauses[..n]);
      assert records[..n] == Records(contractId, clauses[..n], MapSeq(embed, Texts(clauses[..n])));
    }
  }

  /** The database and the vector store that the workers share. */
  class Database {
    var stores: Stores

    constructor (stores: Stores)
      ensures this.stores == stores
    {
      this.stores := stores;
    }
  }

  /** How many commits a task gets to when the surroundings fail after `faults` of them. */
  function Reached(t: Task, faults: nat): nat {
    if faults < Commits(t) then faults else Commits(t)
  }

  /** Attempts at `tasks` in turn, the `i`-th of which fails after `faults(i)` commits, if it has
      that many. */
  function Worked(embed: string -> Embedding, tasks: seq<Task>, faults: nat -> nat, s: Stores): Stores {
    if tasks == [] then s
    else
      var n := |tasks| - 1;
      Advance(embed, tasks[n], Reached(tasks[n], faults(n)), Worked(embed, tasks[..n], faults, s))
  }

  lemma WorkedAppend(embed: string -> Embedding, tasks: seq<Task>, t: Task, faults: nat -> nat, s: Stores)
    ensures Worked(embed, tasks + [t], faults, s) ==
            Advance(embed, t, Reached(t, faults(|tasks|)), Worked(embed, tasks, faults, s))
  {
    assert (tasks + [t])[..|tasks|] == tasks;
  }

  class Worker {
    const queue: WorkerTaskQueue
    const db: Database
    const embedder: CohereEmbedder
    var handlers: set<string>

    constructor (queue: WorkerTaskQueue, db: Database, embedder: CohereEmbedder)
      ensures this.queue == queue && this.db == db && this.embedder == embedder
      ensures handlers == {INGEST_CONTRACT}
    {
      this.queue, this.db, this.embedder := queue, db, embedder;
      handlers := {INGEST_CONTRACT};
    }

    /** Step 1 of the handler. */
    method UpsertContract(task: Task, ghost embed: string -> Embedding)
      modifies db
      ensures db.stores == Commit(embed, task, 0, old(db.stores))
    {
      db.stores := db.stores.(contracts := db.stores.contracts[task.contractId := task.filename]);
    }

    /** Steps 2 and 3: embeds the texts, and upserts the re-paired vectors in one call. */
    method UpsertVectors(task: Task, ghost embed: string -> Embedding)
      requires Pointwise(embedder.client, embed)
      modifies db
      ensures db.stores == Commit(embed, task, 1, old(db.stores))
    {
      var vectors := embedder.Embed(Texts(task.clauses));
      var records := Records(task.contractId, task.clauses, vectors);
      RecordsAreClauses(db.stores.vectors, embed, task.contractId, task.clauses);
      db.stores := db.stores.(vectors := PutRecords(db.stores.vectors, records));
    }

    /** Step 4: one insert after another, in one transaction. */
    method InsertClauses(task: Task, ghost embed: string -> Embedding)
      modifies db
      ensures db.stores == Commit(embed, task, 2, old(db.stores))
    {
      var rows := db.stores.rows;
      var i := 0;
      while i < |task.clauses|
        invariant 0 <= i <= |task.clauses|
        invariant rows == PutRows(db.stores.rows, task.contractId, task.clauses[..i])
      {
        assert task.clauses[..i + 1][..i] == task.clauses[..i];
        rows := PutRow(rows, task.contractId, task.clauses[i]);
        i := i + 1;
      }
      assert task.clauses[..i] == task.clauses;
      db.stores := db.stores.(rows := rows);
    }

    /** The ingest handler; `faults` commits succeed before something raises. */
    method HandleIngestContract(task: Task, faults: nat, ghost embed: string -> Embedding) returns (ok: bool)
      requires task.kind == INGEST_CONTRACT && Pointwise(embedder.client, embed)
      modifies db
      ensures db.stores == Advance(embed, task, Reached(task, faults), old(db.stores))
      ensures ok <==> faults >= Commits(task)
    {
      AdvanceSteps(embed, task, db.stores);
      if faults == 0 { return false; }
      UpsertContract(task, embed);
      if task.clauses == [] { return true; }

      if faults == 1 { return false; }
      UpsertVectors(task, embed);

      if faults == 2 { return false; }
      InsertClauses(task, embed);
      ok := true;
    }

    /** Runs the handler of the task's kind; a missing handler and a failure are only logged. */
    method Handle(task: Task, faults: nat, ghost embed: string -> Embedding)
      requires handlers == {INGEST_CONTRACT} && Pointwise(embedder.client, embed)
      modifies db
      ensures db.stores == Advance(embed, task, Reached(task, faults), old(db.stores))
    {
      if task.kind !in handlers { return; }
      var ok := HandleIngestContract(task, faults, embed);
    }

    /** One round of the main loop. */
    method Poll(faults: nat, ghost embed: string -> Embedding) returns (task: Option<Task>)
      requires handlers == {INGEST_CONTRACT} && Pointwise(embedder.client, embed)
      modifies db, queue.redis
      ensures var list := ListAt(old(queue.redis.lists), queue.key);
              && task == (if list == [] then None else Some(list[0]))
              && ListAt(queue.redis.lists, queue.key) == (if list == [] then [] else list[1..])
      ensures forall k :: k != queue.key ==> ListAt(queue.redis.lists, k) == ListAt(old(queue.redis.lists), k)
      ensures db.stores ==
              if task.Some? then Advance(embed, task.value, Reached(task.value, faults), old(db.stores))
              else old(db.stores)
    {
      task := queue.Pop();
      if task.Some? {
        Handle(task.value, faults, embed);
      }
    }

    /** The main loop, up to the poll after which the stop flag is found set. Every popped task is
        handled once, in the order of the list, whatever happened to those before it. */
    method Run(polls: nat, faults: nat -> nat, ghost embed: string -> Embedding) returns (handled: seq<Task>)
      requires handlers == {INGEST_CONTRACT} && Pointwise(embedder.client, embed)
      modifies db, queue.redis
      ensures var list := ListAt(old(queue.redis.lists), queue.key);
              && handled == list[..if polls < |list| then polls else |list|]
              && ListAt(queue.redis.lists, queue.key) == list[|handled|..]
      ensures forall k :: k != queue.key ==> ListAt(queue.redis.lists, k) == ListAt(old(queue.redis.lists), k)
      ensures db.stores == Worked(embed, handled, faults, old(db.stores))
    {
      handled := [];
      ghost var list := ListAt(queue.redis.lists, queue.key);
      var i := 0;
      while i < polls
        invariant 0 <= i <= polls
        invariant Consumed(list, handled, i)
        invariant ListAt(queue.redis.lists, queue.key) == list[|handled|..]
        invariant forall k :: k != queue.key ==> ListAt(queue.redis.lists, k) == ListAt(old(queue.redis.lists), k)
        invariant db.stores == Worked(embed, handled, faults, old(db.stores))
      {
        var task := Poll(faults(|handled|), embed);
        ConsumeOne(list, handled, i);
        if task.Some? {
          WorkedAppend(embed, handled, task.value, faults, old(db.stores));
          handled := handled + [task.value];
        }
        i := i + 1;
      }
    }
  }

  /** After `polls` polls, `handled` is what there was to pop. */
  predicate Consumed(list: seq<Task>, handled: seq<Task>, polls: nat) {
    |handled| == (if polls < |list| then polls else |list|) && handled == list[..|handled|]
  }

  lemma ConsumeOne(list: seq<Task>, handled: seq<Task>, polls: nat)
    requires Consumed(list, handled, polls)
    ensures list[|handled|..] == [] ==> Consumed(list, handled, polls + 1)
    ensures list[|handled|..] != [] ==>
              Consumed(list, handled + [list[|handled|..][0]], polls + 1) &&
              list[|handled|..][1..] == list[|handled| + 1..]
  {}

  lemma AdvanceSteps(embed: string -> Embedding, t: Task, s: Stores)
    ensures Advance(embed, t, 0, s) == s
    ensures Advance(embed, t, 1, s) == Commit(embed, t, 0, s)
    ensures Advance(embed, t, 2, s) == Commit(embed, t, 1, Commit(embed, t, 0, s))
    ensures Advance(embed, t, 3, s) == Commit(embed, t, 2, Commit(embed, t, 1, Commit(embed, t, 0, s)))
  {}

  /** Without faults the loop is the sequential ingest of its list. */
  lemma {:induction false} FaultlessWork(embed: string -> Embedding, tasks: seq<Task>, faults: nat -> nat, s: Stores)
    requires forall i: nat :: faults(i) >= 3
    ensures Worked(embed, tasks, faults, s) == Serializability.ProcessAll(embed, tasks, s)
  {
    if tasks != [] {
      var n := |tasks| - 1;
      FaultlessWork(embed, tasks[..n], faults, s);
      ProcessAllAppend(embed, tasks[..n], tasks[n], s);
      assert tasks[..n] + [tasks[n]] == tasks;
    }
  }

  lemma {:induction false} ProcessAllAppend(embed: string -> Embedding, tasks: seq<Task>, t: Task, s: Stores)
    ensures Serializability.ProcessAll(embed, tasks + [t], s) ==
            Process(embed, t, Serializability.ProcessAll(embed, tasks, s))
  {
    if tasks == [] {
      assert tasks + [t] == [t];
      assert [t][1..] == [];
    } else {
      assert (tasks + [t])[1..] == tasks[1..] + [t];
      ProcessAllAppend(embed, tasks[1..], t, Process(embed, tasks[0], s));
    }
  }
}
