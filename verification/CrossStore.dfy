/** How the three stores agree with each other, and the stored risk with the text it grades, at
    every moment of every run. */
module CrossStore {
  import opened Options
  import opened IngestStores
  import opened RiskHeuristic
  import opened Pool
  import opened PoolInvariant

  /** What a clause id was made from. */
  datatype Origin = Origin(contractId: string, category: string, text: string)

  /** The clauses of an ingest task are those that the book lists under their ids. A book that
      serves all tasks exists when ids never stand for two different clauses. */
  ghost predicate Faithful(book: map<string, Origin>, t: Task) {
    t.kind == INGEST_CONTRACT ==>
      forall i :: 0 <= i < |t.clauses| ==> Listed(book, t.contractId, t.clauses[i])
  }

  predicate Listed(book: map<string, Origin>, contractId: string, c: Clause) {
    c.id in book && book[c.id] == Origin(contractId, c.category, c.text)
  }

  // ----- What the stores promise -----

  /** Each clause row has its contract row and, under its vector id, a vector that embeds the row's
      own text and carries the row's contract and category. */
  ghost predicate RowsBacked(embed: string -> Embedding, s: Stores) {
    forall key :: RowBacked(embed, s, key)
  }

  ghost predicate RowBacked(embed: string -> Embedding, s: Stores, key: Key) {
    key in s.rows ==>
      && key.0 in s.contracts
      && s.rows[key].vectorId in s.vectors
      && s.vectors[s.rows[key].vectorId] == Vector(embed(s.rows[key].text), key.0, s.rows[key].category)
  }

  /** A stored risk level is the heuristic's verdict on the row's current text. */
  ghost predicate RiskFresh(lower: string -> string, s: Stores) {
    FreshRows(lower, s.rows)
  }

  ghost predicate FreshRows(lower: string -> string, rows: map<Key, Row>) {
    forall key :: key in rows && rows[key].risk.Some? ==> rows[key].risk.value == Assess(lower, rows[key].text)
  }

  // ----- The stores as an extract of the book -----

  ghost predicate VectorsListed(embed: string -> Embedding, book: map<string, Origin>, vectors: map<string, Vector>) {
    forall id :: id in vectors ==>
      id in book && vectors[id] == Vector(embed(book[id].text), book[id].contractId, book[id].category)
  }

  ghost predicate RowsListed(book: map<string, Origin>, contracts: map<string, string>, vectors: map<string, Vector>,
                             rows: map<Key, Row>) {
    forall key :: key in rows ==>
      && key.0 in contracts && key.1 in vectors && key.1 in book
      && rows[key].vectorId == key.1
      && book[key.1] == Origin(key.0, rows[key].category, rows[key].text)
  }

  ghost predicate StoresListed(embed: string -> Embedding, book: map<string, Origin>, s: Stores) {
    VectorsListed(embed, book, s.vectors) && RowsListed(book, s.contracts, s.vectors, s.rows)
  }

  lemma ListedIsBacked(embed: string -> Embedding, book: map<string, Origin>, s: Stores)
    requires StoresListed(embed, book, s)
    ensures RowsBacked(embed, s)
  {}

  lemma {:induction false} PutVectorsListed(embed: string -> Embedding, book: map<string, Origin>,
                                            vectors: map<string, Vector>, contractId: string, clauses: seq<Clause>)
    requires VectorsListed(embed, book, vectors)
    requires forall i :: 0 <= i < |clauses| ==> Listed(book, contractId, clauses[i])
    ensures VectorsListed(embed, book, PutVectors(vectors, embed, contractId, clauses))
    ensures forall id :: id in vectors ==> id in PutVectors(vectors, embed, contractId, clauses)
    ensures forall i :: 0 <= i < |clauses| ==> clauses[i].id in PutVectors(vectors, embed, contractId, clauses)
  {
    if clauses != [] {
      PutVectorsListed(embed, book, vectors, contractId, clauses[..|clauses| - 1]);
      forall i | 0 <= i < |clauses| ensures clauses[i].id in PutVectors(vectors, embed, contractId, clauses) {
        if i < |clauses| - 1 { assert clauses[..|clauses| - 1][i] == clauses[i]; }
      }
    }
  }

  lemma {:induction false} PutRowsListed(lower: string -> string, book: map<string, Origin>,
                                         contracts: map<string, string>, vectors: map<string, Vector>,
                                         rows: map<Key, Row>, contractId: string, clauses: seq<Clause>)
    requires RowsListed(book, contracts, vectors, rows) && FreshRows(lower, rows)
    requires contractId in contracts
    requires forall i :: 0 <= i < |clauses| ==> Listed(book, contractId, clauses[i]) && clauses[i].id in vectors
    ensures RowsListed(book, contracts, vectors, PutRows(rows, contractId, clauses))
    ensures FreshRows(lower, PutRows(rows, contractId, clauses))
  {
    if clauses != [] {
      var n := |clauses| - 1;
      PutRowsListed(lower, book, contracts, vectors, rows, contractId, clauses[..n]);
      assert Listed(book, contractId, clauses[n]);
    }
  }

  lemma {:induction false} PutRowsKeeps(rows: map<Key, Row>, contractId: string, clauses: seq<Clause>)
    ensures forall key :: key in rows ==> key in PutRows(rows, contractId, clauses)
    ensures forall i :: 0 <= i < |clauses| ==> (contractId, clauses[i].id) in PutRows(rows, contractId, clauses)
  {
    if clauses != [] {
      PutRowsKeeps(rows, contractId, clauses[..|clauses| - 1]);
      forall i | 0 <= i < |clauses| ensures (contractId, clauses[i].id) in PutRows(rows, contractId, clauses) {
        if i < |clauses| - 1 { assert clauses[..|clauses| - 1][i] == clauses[i]; }
      }
    }
  }

  // ----- The invariant over runs -----

  /** Every commit of the task that was made left its keys in the stores for good. */
  ghost predicate EntryListed(book: map<string, Origin>, s: Stores, e: Entry) {
    && Faithful(book, e.task)
    && (e.progress >= 1 ==> e.task.contractId in s.contracts)
    && (e.progress >= 2 ==> forall i :: 0 <= i < |e.task.clauses| ==> e.task.clauses[i].id in s.vectors)
    && (e.progress >= 3 ==>
          forall i :: 0 <= i < |e.task.clauses| ==> (e.task.contractId, e.task.clauses[i].id) in s.rows)
  }

  ghost predicate ReadingFresh(cfg: Config, book: map<string, Origin>, reading: Reading) {
    reading.clauseId in book && reading.level == Assess(cfg.lower, book[reading.clauseId].text)
  }

  ghost predicate Agreeing(cfg: Config, book: map<string, Origin>, s: Pool) {
    && Inv(s)
    && StoresListed(cfg.embed, book, s.stores)
    && FreshRows(cfg.lower, s.stores.rows)
    && (forall n :: 0 <= n < |s.log| ==> EntryListed(book, s.stores, s.log[n]))
    && (forall r :: r in s.readers ==> ReadingFresh(cfg, book, s.readers[r]))
  }

  lemma EnqueueAgrees(cfg: Config, book: map<string, Origin>, task: Task, s: Pool)
    requires Faithful(book, task) && Route(cfg, s.ring, task).Some?
    requires Agreeing(cfg, book, s)
    ensures Agreeing(cfg, book, Enqueue(cfg, task, s))
  {
    EnqueueKeepsInv(cfg, task, s);
    var t := Enqueue(cfg, task, s);
    forall m | 0 <= m < |t.log| ensures EntryListed(book, t.stores, t.log[m]) {
      if m < |s.log| { assert EntryListed(book, s.stores, s.log[m]); }
    }
  }

  lemma {:induction false} EnqueueAllAgrees(cfg: Config, book: map<string, Origin>, tasks: seq<Task>, s: Pool)
    requires forall t :: t in tasks ==> Faithful(book, t) && Route(cfg, s.ring, t).Some?
    requires Agreeing(cfg, book, s)
    ensures Agreeing(cfg, book, EnqueueAll(cfg, tasks, s))
  {
    if tasks != [] {
      EnqueueAgrees(cfg, book, tasks[0], s);
      EnqueueAllAgrees(cfg, book, tasks[1..], Enqueue(cfg, tasks[0], s));
    }
  }

  /** A commit keeps the stores listed, and every key in them. */
  lemma CommitListed(cfg: Config, book: map<string, Origin>, e: Entry, s: Stores)
    requires EntryListed(book, s, e) && e.progress < Commits(e.task)
    requires StoresListed(cfg.embed, book, s) && FreshRows(cfg.lower, s.rows)
    ensures var next := Commit(cfg.embed, e.task, e.progress, s);
            && StoresListed(cfg.embed, book, next) && FreshRows(cfg.lower, next.rows)
            && EntryListed(book, next, e.(progress := e.progress + 1))
            && KeysKept(s, next)
  {
    if e.progress == 1 {
      PutVectorsListed(cfg.embed, book, s.vectors, e.task.contractId, e.task.clauses);
    } else if e.progress == 2 {
      PutRowsListed(cfg.lower, book, s.contracts, s.vectors, s.rows, e.task.contractId, e.task.clauses);
      PutRowsKeeps(s.rows, e.task.contractId, e.task.clauses);
    }
  }

  predicate KeysKept(s: Stores, t: Stores) {
    s.contracts.Keys <= t.contracts.Keys && s.vectors.Keys <= t.vectors.Keys && s.rows.Keys <= t.rows.Keys
  }

  lemma StaysListed(book: map<string, Origin>, s: Stores, t: Stores, e: Entry)
    requires EntryListed(book, s, e) && KeysKept(s, t)
    ensures EntryListed(book, t, e)
  {}

  lemma WriteAgrees(cfg: Config, book: map<string, Origin>, w: string, s: Pool)
    requires Agreeing(cfg, book, s) && Enabled(cfg, Write(w), s)
    requires Inv(Next(cfg, Write(w), s))
    ensures Agreeing(cfg, book, Next(cfg, Write(w), s))
  {
    var n := At(s, w).hand.value;
    assert EntryOk(s.log[n]) && EntryListed(book, s.stores, s.log[n]);
    CommitListed(cfg, book, s.log[n], s.stores);
    var t := Next(cfg, Write(w), s);
    forall m | 0 <= m < |t.log| ensures EntryListed(book, t.stores, t.log[m]) {
      if m != n { StaysListed(book, s.stores, t.stores, s.log[m]); }
    }
  }

  lemma ReadAgrees(cfg: Config, book: map<string, Origin>, r: nat, key: Key, s: Pool)
    requires Agreeing(cfg, book, s) && Enabled(cfg, ReadRisk(r, key), s)
    ensures Agreeing(cfg, book, Next(cfg, ReadRisk(r, key), s))
  {
    StepKeepsInv(cfg, ReadRisk(r, key), s);
  }

  lemma ScoredListed(lower: string -> string, book: map<string, Origin>, s: Stores, reading: Reading)
    requires RowsListed(book, s.contracts, s.vectors, s.rows) && FreshRows(lower, s.rows)
    requires reading.clauseId in book && reading.level == Assess(lower, book[reading.clauseId].text)
    ensures RowsListed(book, s.contracts, s.vectors, Scored(s.rows, reading))
    ensures FreshRows(lower, Scored(s.rows, reading))
  {}

  lemma ScoreAgrees(cfg: Config, book: map<string, Origin>, r: nat, s: Pool)
    requires Agreeing(cfg, book, s) && Enabled(cfg, WriteRisk(r), s)
    ensures Agreeing(cfg, book, Next(cfg, WriteRisk(r), s))
  {
    StepKeepsInv(cfg, WriteRisk(r), s);
    assert ReadingFresh(cfg, book, s.readers[r]);
    ScoredListed(cfg.lower, book, s.stores, s.readers[r]);
    var t := Next(cfg, WriteRisk(r), s);
    forall m | 0 <= m < |t.log| ensures EntryListed(book, t.stores, t.log[m]) {
      assert EntryListed(book, s.stores, s.log[m]);
    }
  }

  lemma PopAgrees(cfg: Config, book: map<string, Origin>, w: string, s: Pool)
    requires Agreeing(cfg, book, s) && Enabled(cfg, Pop(w), s)
    ensures Agreeing(cfg, book, Next(cfg, Pop(w), s))
  {
    StepKeepsInv(cfg, Pop(w), s);
    var t := Next(cfg, Pop(w), s);
    forall m | 0 <= m < |t.log| ensures EntryListed(book, t.stores, t.log[m]) {
      assert EntryListed(book, s.stores, s.log[m]);
    }
  }

  lemma FinishAgrees(cfg: Config, book: map<string, Origin>, w: string, outcome: Outcome, s: Pool)
    requires Agreeing(cfg, book, s) && Holds(s, w) && Inv(Finish(s, w, outcome))
    ensures Agreeing(cfg, book, Finish(s, w, outcome))
  {
    var t := Finish(s, w, outcome);
    forall m | 0 <= m < |t.log| ensures EntryListed(book, t.stores, t.log[m]) {
      assert EntryListed(book, s.stores, s.log[m]);
    }
  }

  lemma StepAgrees(cfg: Config, book: map<string, Origin>, step: Step, s: Pool)
    requires forall t :: t in TasksOf(step) ==> Faithful(book, t)
    requires Agreeing(cfg, book, s) && Enabled(cfg, step, s)
    ensures Agreeing(cfg, book, Next(cfg, step, s))
  {
    StepKeepsInv(cfg, step, s);
    match step
    case Dispatch(t) =>
      assert t in TasksOf(step);
      EnqueueAgrees(cfg, book, t, s);
    case DispatchMany(ts) => EnqueueAllAgrees(cfg, book, ts, s);
    case Pop(w) => PopAgrees(cfg, book, w, s);
    case Write(w) => WriteAgrees(cfg, book, w, s);
    case Return(w) => FinishAgrees(cfg, book, w, Done, s);
    case Raise(w) => FinishAgrees(cfg, book, w, Failed, s);
    case Crash(w) => if Holds(s, w) { FinishAgrees(cfg, book, w, Lost, s); }
    case Refresh(_) =>
    case ReadRisk(r, key) => ReadAgrees(cfg, book, r, key, s);
    case WriteRisk(r) => ScoreAgrees(cfg, book, r, s);
  }

  lemma {:induction false} RunAgrees(cfg: Config, book: map<string, Origin>, steps: seq<Step>, s: Pool)
    requires forall t :: t in Dispatched(steps) ==> Faithful(book, t)
    requires Agreeing(cfg, book, s) && Legal(cfg, steps, s)
    ensures Agreeing(cfg, book, Run(cfg, steps, s))
  {
    if steps != [] {
      assert forall t :: t in TasksOf(steps[0]) ==> t in Dispatched(steps);
      assert forall t :: t in Dispatched(steps[1..]) ==> t in Dispatched(steps);
      StepAgrees(cfg, book, steps[0], s);
      RunAgrees(cfg, book, steps[1..], Next(cfg, steps[0], s));
    }
  }

  /** In every reachable state, whatever interleaved, failed, crashed or was rerouted: no clause row
      without its contract and its vector, the vector made from the row's own text, and no stored
      risk level that disagrees with the text. */
  lemma StoresAgree(cfg: Config, book: map<string, Origin>, steps: seq<Step>, ring: map<int, string>, stores: Stores)
    requires forall t :: t in Dispatched(steps) ==> Faithful(book, t)
    requires StoresListed(cfg.embed, book, stores) && RiskFresh(cfg.lower, stores)
    requires Legal(cfg, steps, Fresh(ring, stores))
    ensures StoresListed(cfg.embed, book, Run(cfg, steps, Fresh(ring, stores)).stores)
    ensures RowsBacked(cfg.embed, Run(cfg, steps, Fresh(ring, stores)).stores)
    ensures RiskFresh(cfg.lower, Run(cfg, steps, Fresh(ring, stores)).stores)
  {
    FreshInv(ring, stores);
    RunAgrees(cfg, book, steps, Fresh(ring, stores));
    ListedIsBacked(cfg.embed, book, Run(cfg, steps, Fresh(ring, stores)).stores);
  }

  // ----- Nothing is missing -----

  /** A clause of a contract is there in full: its contract, its row and its vector. */
  ghost predicate ClauseStored(embed: string -> Embedding, s: Stores, contractId: string, c: Clause) {
    var key: Key := (contractId, c.id);
    && contractId in s.contracts && key in s.rows && c.id in s.vectors
    && s.rows[key].text == c.text && s.rows[key].category == c.category && s.rows[key].vectorId == c.id
    && s.vectors[c.id] == Vector(embed(c.text), contractId, c.category)
  }

  /** Each task of which an attempt returned is stored. */
  ghost predicate DoneIsThere(embed: string -> Embedding, s: Pool) {
    forall n :: 0 <= n < |s.log| && s.log[n].outcome == Done ==> TaskStored(embed, s.stores, s.log[n].task)
  }

  /** As soon as an attempt at a task has returned, and ever after, each of its clauses is stored with
      its own text, category and embedding, whatever else runs, fails or crashes. */
  lemma ReturnedIsStored(cfg: Config, book: map<string, Origin>, steps: seq<Step>, ring: map<int, string>,
                         stores: Stores)
    requires forall t :: t in Dispatched(steps) ==> Faithful(book, t)
    requires StoresListed(cfg.embed, book, stores) && RiskFresh(cfg.lower, stores)
    requires Legal(cfg, steps, Fresh(ring, stores))
    ensures DoneIsThere(cfg.embed, Run(cfg, steps, Fresh(ring, stores)))
  {
    FreshInv(ring, stores);
    RunAgrees(cfg, book, steps, Fresh(ring, stores));
    var s := Run(cfg, steps, Fresh(ring, stores));
    forall n | 0 <= n < |s.log| && s.log[n].outcome == Done ensures TaskStored(cfg.embed, s.stores, s.log[n].task) {
      assert EntryOk(s.log[n]) && EntryListed(book, s.stores, s.log[n]);
      DoneIsStored(cfg.embed, book, s.stores, s.log[n]);
    }
  }

  ghost predicate TaskStored(embed: string -> Embedding, s: Stores, t: Task) {
    t.kind == INGEST_CONTRACT ==>
      && t.contractId in s.contracts
      && forall i :: 0 <= i < |t.clauses| ==> ClauseStored(embed, s, t.contractId, t.clauses[i])
  }

  lemma DoneIsStored(embed: string -> Embedding, book: map<string, Origin>, s: Stores, e: Entry)
    requires EntryListed(book, s, e) && StoresListed(embed, book, s) && e.progress == Commits(e.task)
    ensures TaskStored(embed, s, e.task)
  {
    if e.task.kind == INGEST_CONTRACT {
      forall i | 0 <= i < |e.task.clauses| ensures ClauseStored(embed, s, e.task.contractId, e.task.clauses[i]) {
        assert Listed(book, e.task.contractId, e.task.clauses[i]);
      }
    }
  }

  // ----- Outside the book: risks -----

  /** What the clause commit makes of a row. */
  lemma CommittedRow(embed: string -> Embedding, t: Task, s: Stores, key: Key)
    ensures var after := PutRows(s.rows, t.contractId, t.clauses);
            if key.0 == t.contractId && Occurs(t.clauses, key.1) then
              && key in after && after[key].text == LastOf(t.clauses, key.1).text && after[key].vectorId == key.1
              && after[key].category == CategoryAfter(t, s.rows, key.1)
              && after[key].risk == (if key in s.rows then s.rows[key].risk else None)
            else (key in after <==> key in s.rows) && (key in s.rows ==> after[key] == s.rows[key])
  {
    PutRowsReads(s.rows, t.contractId, t.clauses, key);
    FoldedShape(t.clauses, key.1, Lookup(s.rows, key));
  }

  /** The category of a row after an ingest: the stored one, or else that of the first clause. */
  function CategoryAfter(t: Task, rows: map<Key, Row>, id: string): string
    requires Occurs(t.clauses, id)
  {
    var key: Key := (t.contractId, id);
    if key in rows then rows[key].category else FirstOf(t.clauses, id).category
  }

  /** A graded row that the ingest rewrites would be graded the same again. */
  ghost predicate SameGrade(lower: string -> string, t: Task, s: Stores, id: string) {
    var key: Key := (t.contractId, id);
    Occurs(t.clauses, id) && key in s.rows && s.rows[key].risk.Some? ==>
      s.rows[key].risk.value == Assess(lower, LastOf(t.clauses, id).text)
  }

  /** An ingest that reuses a clause id for another text keeps stored risks fresh exactly when every
      graded row it rewrites would be graded the same again: the upsert leaves the risk column. */
  lemma RewriteKeepsRisk(cfg: Config, t: Task, s: Stores)
    requires RiskFresh(cfg.lower, s)
    ensures RiskFresh(cfg.lower, Commit(cfg.embed, t, 2, s)) <==> forall id :: SameGrade(cfg.lower, t, s, id)
  {
    var after := PutRows(s.rows, t.contractId, t.clauses);
    forall key: Key
      ensures RowFresh(cfg.lower, after, key) <==> (key.0 == t.contractId ==> SameGrade(cfg.lower, t, s, key.1))
    {
      CommittedRow(cfg.embed, t, s, key);
      assert key.0 == t.contractId ==> key == (t.contractId, key.1);
    }
    FreshByRow(cfg.lower, after);
    if FreshRows(cfg.lower, after) {
      forall id ensures SameGrade(cfg.lower, t, s, id) {
        assert RowFresh(cfg.lower, after, (t.contractId, id));
      }
    }
  }

  ghost predicate RowFresh(lower: string -> string, rows: map<Key, Row>, key: Key) {
    key in rows && rows[key].risk.Some? ==> rows[key].risk.value == Assess(lower, rows[key].text)
  }

  lemma FreshByRow(lower: string -> string, rows: map<Key, Row>)
    ensures FreshRows(lower, rows) <==> forall key :: RowFresh(lower, rows, key)
  {
    if FreshRows(lower, rows) {
      forall key ensures RowFresh(lower, rows, key) {}
    } else {
      var key :| key in rows && rows[key].risk.Some? && rows[key].risk.value != Assess(lower, rows[key].text);
      assert !RowFresh(lower, rows, key);
    }
  }

  /** The level of a scoring in flight is right for a row as the ingest leaves it. */
  ghost predicate RightFor(lower: string -> string, t: Task, s: Stores, reading: Reading, key: Key) {
    if key.0 == t.contractId && Occurs(t.clauses, key.1) then
      reading.level == Assess(lower, LastOf(t.clauses, key.1).text)
    else key in s.rows ==> reading.level == Assess(lower, s.rows[key].text)
  }

  /** With the ingest between the SELECT and the UPDATE of a scoring, risks end up fresh exactly when
      the other graded rows would be graded the same and the level read before is right for the clause's
      rows as they now are. */
  lemma RewriteDuringScoring(cfg: Config, t: Task, s: Stores, reading: Reading)
    requires RiskFresh(cfg.lower, s)
    ensures FreshRows(cfg.lower, Scored(Commit(cfg.embed, t, 2, s).rows, reading)) <==>
            && (forall id :: id != reading.clauseId ==> SameGrade(cfg.lower, t, s, id))
            && (forall contractId :: RightFor(cfg.lower, t, s, reading, (contractId, reading.clauseId)))
  {
    var after := PutRows(s.rows, t.contractId, t.clauses);
    var scored := Scored(after, reading);
    forall key: Key
      ensures RowFresh(cfg.lower, scored, key) <==>
              if key.1 == reading.clauseId then RightFor(cfg.lower, t, s, reading, key)
              else key.0 == t.contractId ==> SameGrade(cfg.lower, t, s, key.1)
    {
      CommittedRow(cfg.embed, t, s, key);
      assert key.0 == t.contractId ==> key == (t.contractId, key.1);
    }
    FreshByRow(cfg.lower, scored);
    if FreshRows(cfg.lower, scored) {
      forall id | id != reading.clauseId ensures SameGrade(cfg.lower, t, s, id) {
        assert RowFresh(cfg.lower, scored, (t.contractId, id));
      }
      forall contractId ensures RightFor(cfg.lower, t, s, reading, (contractId, reading.clauseId)) {
        assert RowFresh(cfg.lower, scored, (contractId, reading.clauseId));
      }
    } else {
      var key: Key :| !RowFresh(cfg.lower, scored, key);
      assert key == (key.0, key.1);
    }
  }

  // ----- Outside the book: vectors -----

  /** A row that the ingest leaves alone, although it overwrites the row's vector, is served as well by
      the new vector. */
  ghost predicate VectorServes(embed: string -> Embedding, t: Task, s: Stores, key: Key) {
    key in s.rows && !(key.0 == t.contractId && Occurs(t.clauses, key.1)) && Occurs(t.clauses, s.rows[key].vectorId) ==>
      var last := LastOf(t.clauses, s.rows[key].vectorId);
      Vector(embed(s.rows[key].text), key.0, s.rows[key].category) ==
      Vector(embed(last.text), t.contractId, last.category)
  }

  /** A row keeps the category it first had, and its vector takes the last. */
  ghost predicate SameCategory(t: Task, s: Stores, id: string) {
    Occurs(t.clauses, id) ==> CategoryAfter(t, s.rows, id) == LastOf(t.clauses, id).category
  }

  lemma RowBackedAfter(embed: string -> Embedding, t: Task, s: Stores, key: Key)
    requires t.kind == INGEST_CONTRACT && RowsBacked(embed, s)
    ensures RowBacked(embed, Process(embed, t, s), key) <==>
            VectorServes(embed, t, s, key) && (key.0 == t.contractId ==> SameCategory(t, s, key.1))
  {
    assert RowBacked(embed, s, key);
    ProcessShape(embed, t, s);
    CommittedRow(embed, t, s, key);
    PutVectorsReads(s.vectors, embed, t.contractId, t.clauses, key.1);
    if key in s.rows {
      PutVectorsReads(s.vectors, embed, t.contractId, t.clauses, s.rows[key].vectorId);
    }
  }

  /** A complete ingest leaves every row with its own contract, embedding and category exactly when
      clause ids keep their categories, and no vector it overwrites is needed by another row. */
  lemma IngestKeepsBacked(embed: string -> Embedding, t: Task, s: Stores)
    requires t.kind == INGEST_CONTRACT && RowsBacked(embed, s)
    ensures RowsBacked(embed, Process(embed, t, s)) <==>
            (forall id :: SameCategory(t, s, id)) && (forall key :: VectorServes(embed, t, s, key))
  {
    var after := Process(embed, t, s);
    forall key ensures RowBacked(embed, after, key) <==>
                       VectorServes(embed, t, s, key) && (key.0 == t.contractId ==> SameCategory(t, s, key.1))
    {
      RowBackedAfter(embed, t, s, key);
    }
    if RowsBacked(embed, after) {
      forall id ensures SameCategory(t, s, id) {
        assert RowBacked(embed, after, (t.contractId, id));
      }
    }
  }
}
