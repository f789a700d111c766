/** From the corpus to the stores: the driver's tasks meet what the pool's theorems ask of tasks. */
module EndToEnd {
  import opened Options
  import opened IngestStores
  import opened Parser
  import opened Pool
  import opened PoolInvariant
  import opened Serializability
  import opened Retries
  import opened Locality
  import opened CrossStore
  import Conservation

  /** The task that the driver dispatches for a parsed contract. */
  function TaskFor(c: ParsedContract): Task {
    Task(INGEST_CONTRACT, c.contractId, c.contractId, c.filename, c.clauses)
  }

  /** Every dispatched task is the driver's task for one of `docs`. */
  ghost predicate FromDocuments(ops: TextOps, docs: seq<Document>, tasks: seq<Task>)
    requires HexDigests(ops.sha1)
  {
    forall t :: t in tasks ==> exists i :: 0 <= i < |docs| && t == TaskFor(Parsed(ops, docs[i]))
  }

  /** The driver's tasks are routed by the contract id that all their clause ids start with. */
  lemma ParsedTaskShaped(ops: TextOps, doc: Document)
    requires HexDigests(ops.sha1)
    ensures Shaped(TaskFor(Parsed(ops, doc)))
  {
    var t := TaskFor(Parsed(ops, doc));
    CollectedOfMadeFor(ops, doc);
    forall id | Occurs(t.clauses, id) ensures OwnedBy(id, t.contractId) {
      var i :| 0 <= i < |t.clauses| && t.clauses[i].id == id;
      assert t.clauses[i] in t.clauses;
      IdParts(ops, t.contractId, t.clauses[i]);
    }
  }

  // ----- Premises on the truncated digests -----

  /** Every annotated clause of the documents, with the contract it belongs to. */
  ghost function Pairs(ops: TextOps, docs: seq<Document>): set<(string, Clause)>
    requires HexDigests(ops.sha1)
  {
    set i, c | 0 <= i < |docs| && c in CollectedOf(ops, docs[i]) :: (Parsed(ops, docs[i]).contractId, c)
  }

  ghost function PreimagesOf(ops: TextOps, docs: seq<Document>, contractId: string): set<string>
    requires HexDigests(ops.sha1)
  {
    set p | p in Pairs(ops, docs) && p.0 == contractId :: Preimage(p.0, p.1.category, p.1.text)
  }

  /** Within each contract, the truncated digests of the annotated clauses do not collide. */
  ghost predicate TagsApart(ops: TextOps, docs: seq<Document>)
    requires HexDigests(ops.sha1)
  {
    forall contractId :: InjectiveOn(Tagger(ops.sha1), PreimagesOf(ops, docs, contractId))
  }

  /** Contract ids are truncated digests too: whether they tell the titles apart. */
  ghost predicate TitlesApart(ops: TextOps, docs: seq<Document>)
    requires HexDigests(ops.sha1)
  {
    forall i, j :: 0 <= i < |docs| && 0 <= j < |docs| &&
                   Parsed(ops, docs[i]).contractId == Parsed(ops, docs[j]).contractId ==>
                     docs[i].title == docs[j].title
  }

  lemma PairMade(ops: TextOps, docs: seq<Document>, p: (string, Clause))
    requires HexDigests(ops.sha1) && p in Pairs(ops, docs)
    ensures |p.0| == 16 && '|' !in p.0 && MadeFor(ops, p.0, p.1)
    ensures Preimage(p.0, p.1.category, p.1.text) in PreimagesOf(ops, docs, p.0)
  {
    var i, c :| 0 <= i < |docs| && c in CollectedOf(ops, docs[i]) && p == (Parsed(ops, docs[i]).contractId, c);
    CollectedOfMadeFor(ops, docs[i]);
  }

  /** Unless truncated digests collide within a contract, an id stands for one clause of one contract. */
  lemma IdsTellClausesApart(ops: TextOps, docs: seq<Document>)
    requires HexDigests(ops.sha1) && TagsApart(ops, docs)
    ensures forall p, q :: p in Pairs(ops, docs) && q in Pairs(ops, docs) && p.1.id == q.1.id ==> p == q
  {
    forall p, q | p in Pairs(ops, docs) && q in Pairs(ops, docs) && p.1.id == q.1.id ensures p == q {
      PairMade(ops, docs, p);
      PairMade(ops, docs, q);
      IdParts(ops, p.0, p.1);
      IdParts(ops, q.0, q.1);
      SameIdSameTag(ops, p.0, p.1, q.1);
      assert InjectiveOn(Tagger(ops.sha1), PreimagesOf(ops, docs, p.0));
      SamePreimage(ops, p.0, p.1, q.1);
    }
  }

  /** And then parsing keeps every annotated clause. */
  lemma EachIsKept(ops: TextOps, docs: seq<Document>, i: nat, c: Clause)
    requires HexDigests(ops.sha1) && TagsApart(ops, docs) && i < |docs| && c in CollectedOf(ops, docs[i])
    ensures c in Parsed(ops, docs[i]).clauses
  {
    var p := Parsed(ops, docs[i]);
    var s := PreimagesIn(p.contractId, CollectedOf(ops, docs[i]));
    forall x | x in s ensures x in PreimagesOf(ops, docs, p.contractId) {
      var d :| d in CollectedOf(ops, docs[i]) && x == Preimage(p.contractId, d.category, d.text);
      assert (p.contractId, d) in Pairs(ops, docs);
    }
    assert InjectiveOn(Tagger(ops.sha1), PreimagesOf(ops, docs, p.contractId));
    ParsingLosesNothing(ops, docs[i]);
  }

  // ----- The book of clause origins -----

  ghost function BookOf(ops: TextOps, docs: seq<Document>): map<string, Origin>
    requires HexDigests(ops.sha1)
  {
    map id | id in (set p | p in Pairs(ops, docs) :: p.1.id) :: OriginOf(ops, docs, id)
  }

  predicate Identifies(id: string, p: (string, Clause)) {
    p.1.id == id
  }

  ghost function OriginOf(ops: TextOps, docs: seq<Document>, id: string): Origin
    requires HexDigests(ops.sha1)
    requires exists p :: p in Pairs(ops, docs) && Identifies(id, p)
  {
    var p :| p in Pairs(ops, docs) && Identifies(id, p);
    Origin(p.0, p.1.category, p.1.text)
  }

  ghost predicate Apart(ops: TextOps, docs: seq<Document>)
    requires HexDigests(ops.sha1)
  {
    forall p, q :: p in Pairs(ops, docs) && q in Pairs(ops, docs) && p.1.id == q.1.id ==> p == q
  }

  lemma TaskFaithful(ops: TextOps, docs: seq<Document>, i: nat)
    requires HexDigests(ops.sha1) && Apart(ops, docs) && i < |docs|
    ensures Faithful(BookOf(ops, docs), TaskFor(Parsed(ops, docs[i])))
  {
    var t := TaskFor(Parsed(ops, docs[i]));
    CollectedOfMadeFor(ops, docs[i]);
    forall k | 0 <= k < |t.clauses| ensures Listed(BookOf(ops, docs), t.contractId, t.clauses[k]) {
      assert t.clauses[k] in t.clauses;
      var mine := (t.contractId, t.clauses[k]);
      assert mine in Pairs(ops, docs);
      assert t.clauses[k].id in BookOf(ops, docs);
    }
  }

  lemma DispatchedFaithful(ops: TextOps, docs: seq<Document>, tasks: seq<Task>)
    requires HexDigests(ops.sha1) && TagsApart(ops, docs) && FromDocuments(ops, docs, tasks)
    ensures forall t :: t in tasks ==> Faithful(BookOf(ops, docs), t)
  {
    IdsTellClausesApart(ops, docs);
    forall t | t in tasks ensures Faithful(BookOf(ops, docs), t) {
      var i :| 0 <= i < |docs| && t == TaskFor(Parsed(ops, docs[i]));
      TaskFaithful(ops, docs, i);
    }
  }

  // ----- Any two parsed ingests may be reordered -----

  lemma InPairs(ops: TextOps, docs: seq<Document>, i: nat, c: Clause)
    requires HexDigests(ops.sha1) && i < |docs| && c in Parsed(ops, docs[i]).clauses
    ensures (Parsed(ops, docs[i]).contractId, c) in Pairs(ops, docs)
  {
    CollectedOfMadeFor(ops, docs[i]);
  }

  lemma TwoCompatible(ops: TextOps, docs: seq<Document>, i: nat, j: nat)
    requires HexDigests(ops.sha1) && Apart(ops, docs) && TitlesApart(ops, docs) && i < |docs| && j < |docs|
    ensures Compatible(TaskFor(Parsed(ops, docs[i])), TaskFor(Parsed(ops, docs[j])))
  {
    var t, u := TaskFor(Parsed(ops, docs[i])), TaskFor(Parsed(ops, docs[j]));
    forall id | Occurs(t.clauses, id) && Occurs(u.clauses, id) ensures SameRecord(t, u, id) {
      FirstAndLast(t.clauses, id);
      FirstAndLast(u.clauses, id);
      InPairs(ops, docs, i, FirstOf(t.clauses, id));
      InPairs(ops, docs, i, LastOf(t.clauses, id));
      InPairs(ops, docs, j, FirstOf(u.clauses, id));
      InPairs(ops, docs, j, LastOf(u.clauses, id));
    }
  }

  /** Unless truncated digests collide, any two ingests of parsed documents may be reordered, even two
      versions of one document. */
  lemma ParsedConsistent(ops: TextOps, docs: seq<Document>, tasks: seq<Task>)
    requires HexDigests(ops.sha1) && TagsApart(ops, docs) && TitlesApart(ops, docs) && FromDocuments(ops, docs, tasks)
    ensures Consistent(Elements(tasks))
  {
    IdsTellClausesApart(ops, docs);
    forall t, u | t in Elements(tasks) && u in Elements(tasks) ensures Compatible(t, u) {
      assert t in tasks && u in tasks;
      var i :| 0 <= i < |docs| && t == TaskFor(Parsed(ops, docs[i]));
      var j :| 0 <= j < |docs| && u == TaskFor(Parsed(ops, docs[j]));
      TwoCompatible(ops, docs, i, j);
    }
  }

  // ----- The ingest of parsed documents -----

  /** What the drivers did: dispatch tasks of parsed documents, in any run from empty stores. */
  ghost predicate IngestRun(cfg: Config, ops: TextOps, docs: seq<Document>, steps: seq<Step>, ring: map<int, string>)
    requires HexDigests(ops.sha1)
  {
    FromDocuments(ops, docs, Dispatched(steps)) && Legal(cfg, steps, Fresh(ring, EMPTY))
  }

  lemma ShownEmpty(scoring: bool)
    ensures Shown(scoring, EMPTY) == EMPTY
  {
    assert WithoutRisk(map[]) == map[];
  }

  lemma ParsedColocated(cfg: Config, ops: TextOps, docs: seq<Document>, steps: seq<Step>, ring: map<int, string>)
    requires HexDigests(ops.sha1) && TagsApart(ops, docs) && TitlesApart(ops, docs)
    requires IngestRun(cfg, ops, docs, steps, ring)
    ensures Colocated(Run(cfg, steps, Fresh(ring, EMPTY)).log)
  {
    ParsedConsistent(ops, docs, Dispatched(steps));
    Conservation.RunLogs(cfg, steps, Fresh(ring, EMPTY));
    assert Logged(Fresh(ring, EMPTY).log) == [];
    ConsistentIsColocated(Run(cfg, steps, Fresh(ring, EMPTY)).log);
  }

  /** At every moment of every run: the stores agree with each other and with the stored risks, every
      row is that of an annotated clause, and the stores are those of a sequential ingest of the commits
      made so far, in dispatch order; on any changing ring, unless contract ids collide. */
  lemma ParsedIngest(cfg: Config, ops: TextOps, docs: seq<Document>, steps: seq<Step>, ring: map<int, string>)
    requires HexDigests(ops.sha1) && TagsApart(ops, docs) && IngestRun(cfg, ops, docs, steps, ring)
    requires TitlesApart(ops, docs) || Colocated(Run(cfg, steps, Fresh(ring, EMPTY)).log)
    ensures var s := Run(cfg, steps, Fresh(ring, EMPTY));
            && RowsBacked(cfg.embed, s.stores) && RiskFresh(cfg.lower, s.stores) && OnlyAnnotated(ops, docs, s.stores)
            && Logged(s.log) == Dispatched(steps)
            && Shown(Scores(steps), s.stores) == Replay(cfg.embed, s.log, EMPTY)
  {
    if TitlesApart(ops, docs) { ParsedColocated(cfg, ops, docs, steps, ring); }
    RunsAreSerializable(cfg, steps, ring, EMPTY);
    ShownEmpty(Scores(steps));
    DispatchedFaithful(ops, docs, Dispatched(steps));
    StoresAgree(cfg, BookOf(ops, docs), steps, ring, EMPTY);
    ListedIsAnnotated(cfg.embed, ops, docs, Run(cfg, steps, Fresh(ring, EMPTY)).stores);
  }

  /** The clause of an answer of one of the documents, with its contract. */
  ghost predicate FromDocument(ops: TextOps, docs: seq<Document>, contractId: string, c: Clause) {
    exists i :: 0 <= i < |docs| && StartsOf(contractId, ops.sha1(docs[i].title), 16) &&
                IsAnnotated(ops, docs[i], contractId, c)
  }

  /** Every row is that of the clause of an answer of one of the documents. */
  ghost predicate OnlyAnnotated(ops: TextOps, docs: seq<Document>, s: Stores) {
    forall key :: key in s.rows ==>
      FromDocument(ops, docs, key.0, Clause(key.1, s.rows[key].category, s.rows[key].text))
  }

  lemma PairFromDocument(ops: TextOps, docs: seq<Document>, p: (string, Clause))
    requires HexDigests(ops.sha1) && p in Pairs(ops, docs)
    ensures FromDocument(ops, docs, p.0, p.1)
  {
    var i, c :| 0 <= i < |docs| && c in CollectedOf(ops, docs[i]) && p == (Parsed(ops, docs[i]).contractId, c);
    ParsedIsParse(ops, docs[i]);
    ParsingLosesNothing(ops, docs[i]);
  }

  ghost predicate EntryOf(ops: TextOps, docs: seq<Document>, id: string, p: (string, Clause))
    requires HexDigests(ops.sha1)
  {
    p in Pairs(ops, docs) && Identifies(id, p) && id in BookOf(ops, docs) &&
    BookOf(ops, docs)[id] == Origin(p.0, p.1.category, p.1.text)
  }

  lemma BookEntry(ops: TextOps, docs: seq<Document>, id: string)
    requires HexDigests(ops.sha1)
    ensures id in BookOf(ops, docs) ==> exists p :: EntryOf(ops, docs, id, p)
  {
    if id in BookOf(ops, docs) {
      assert exists q :: q in Pairs(ops, docs) && Identifies(id, q);
      var p :| p in Pairs(ops, docs) && Identifies(id, p) &&
               OriginOf(ops, docs, id) == Origin(p.0, p.1.category, p.1.text);
      assert EntryOf(ops, docs, id, p);
    }
  }

  lemma ListedIsAnnotated(embed: string -> Embedding, ops: TextOps, docs: seq<Document>, s: Stores)
    requires HexDigests(ops.sha1) && StoresListed(embed, BookOf(ops, docs), s)
    ensures OnlyAnnotated(ops, docs, s)
  {
    forall key | key in s.rows
      ensures FromDocument(ops, docs, key.0, Clause(key.1, s.rows[key].category, s.rows[key].text))
    {
      BookEntry(ops, docs, key.1);
      var p :| EntryOf(ops, docs, key.1, p);
      assert p == (key.0, Clause(key.1, s.rows[key].category, s.rows[key].text));
      PairFromDocument(ops, docs, p);
    }
  }

  /** Whatever an answer of the document stands for is stored, with its contract, text, category and
      embedding. */
  ghost predicate AllAnswersStored(embed: string -> Embedding, ops: TextOps, doc: Document, stores: Stores) {
    forall contractId, s, c ::
      StartsOf(contractId, ops.sha1(doc.title), 16) && IsClauseAt(ops, contractId, doc.paragraphs, s, c) ==>
        ClauseStored(embed, stores, contractId, c)
  }

  /** Nothing is missing: once an attempt at a document's task has returned, and ever after, the clause of
      each of its answers is stored. */
  lemma ReturnedIsComplete(cfg: Config, ops: TextOps, docs: seq<Document>, steps: seq<Step>, ring: map<int, string>,
                           i: nat)
    requires HexDigests(ops.sha1) && TagsApart(ops, docs) && IngestRun(cfg, ops, docs, steps, ring)
    requires i < |docs| && Returned(Run(cfg, steps, Fresh(ring, EMPTY)), TaskFor(Parsed(ops, docs[i])))
    ensures AllAnswersStored(cfg.embed, ops, docs[i], Run(cfg, steps, Fresh(ring, EMPTY)).stores)
  {
    DispatchedFaithful(ops, docs, Dispatched(steps));
    ReturnedIsStored(cfg, BookOf(ops, docs), steps, ring, EMPTY);
    ReturnedIsThere(cfg.embed, Run(cfg, steps, Fresh(ring, EMPTY)), TaskFor(Parsed(ops, docs[i])));
    AnnotatedIsStored(cfg.embed, ops, docs, Run(cfg, steps, Fresh(ring, EMPTY)).stores, i);
  }

  lemma ReturnedIsThere(embed: string -> Embedding, s: Pool, t: Task)
    requires DoneIsThere(embed, s) && Returned(s, t)
    ensures TaskStored(embed, s.stores, t)
  {}

  lemma AnnotatedIsStored(embed: string -> Embedding, ops: TextOps, docs: seq<Document>, stores: Stores, i: nat)
    requires HexDigests(ops.sha1) && TagsApart(ops, docs)
    requires i < |docs| && TaskStored(embed, stores, TaskFor(Parsed(ops, docs[i])))
    ensures AllAnswersStored(embed, ops, docs[i], stores)
  {
    var t := TaskFor(Parsed(ops, docs[i]));
    ParsedIsParse(ops, docs[i]);
    forall contractId, s, c | StartsOf(contractId, ops.sha1(docs[i].title), 16) &&
                              IsClauseAt(ops, contractId, docs[i].paragraphs, s, c)
      ensures ClauseStored(embed, stores, contractId, c)
    {
      assert contractId == t.contractId;
      CollectedExactly(ops, contractId, docs[i].paragraphs, c);
      EachIsKept(ops, docs, i, c);
      var k :| 0 <= k < |t.clauses| && t.clauses[k] == c;
    }
  }

  /** In particular, once the queues are drained without a failure, for every document dispatched. */
  lemma DrainedIsComplete(cfg: Config, ops: TextOps, docs: seq<Document>, steps: seq<Step>, ring: map<int, string>,
                          i: nat)
    requires HexDigests(ops.sha1) && TagsApart(ops, docs) && IngestRun(cfg, ops, docs, steps, ring)
    requires Succeeds(steps) && Drained(Run(cfg, steps, Fresh(ring, EMPTY)))
    requires i < |docs| && TaskFor(Parsed(ops, docs[i])) in Dispatched(steps)
    ensures AllAnswersStored(cfg.embed, ops, docs[i], Run(cfg, steps, Fresh(ring, EMPTY)).stores)
  {
    AllReturned(cfg, steps, ring, TaskFor(Parsed(ops, docs[i])));
    ReturnedIsComplete(cfg, ops, docs, steps, ring, i);
  }

  lemma AllReturned(cfg: Config, steps: seq<Step>, ring: map<int, string>, t: Task)
    requires Legal(cfg, steps, Fresh(ring, EMPTY)) && Succeeds(steps) && Drained(Run(cfg, steps, Fresh(ring, EMPTY)))
    requires t in Dispatched(steps)
    ensures Returned(Run(cfg, steps, Fresh(ring, EMPTY)), t)
  {
    var s := Run(cfg, steps, Fresh(ring, EMPTY));
    AllComplete(cfg, steps, ring, EMPTY);
    Conservation.RunLogs(cfg, steps, Fresh(ring, EMPTY));
    assert Logged(Fresh(ring, EMPTY).log) == [];
    assert Logged(s.log) == Dispatched(steps);
    var n :| 0 <= n < |Logged(s.log)| && Logged(s.log)[n] == t;
    assert s.log[n].task == t && s.log[n].outcome == Done;
  }

  /** Any run, on any changing ring, in which some attempt at each task returned leaves what one
      sequential ingest of each task leaves. */
  lemma ParsedRetries(cfg: Config, ops: TextOps, docs: seq<Document>, steps: seq<Step>, ring: map<int, string>)
    requires HexDigests(ops.sha1) && TagsApart(ops, docs) && TitlesApart(ops, docs)
    requires IngestRun(cfg, ops, docs, steps, ring) && EveryTaskReturned(Run(cfg, steps, Fresh(ring, EMPTY)))
    ensures Shown(Scores(steps), Run(cfg, steps, Fresh(ring, EMPTY)).stores) ==
            ProcessAll(cfg.embed, FirstOccurrences(Dispatched(steps)), EMPTY)
  {
    ParsedConsistent(ops, docs, Dispatched(steps));
    RetriesActOnce(cfg, steps, ring, EMPTY);
    ShownEmpty(Scores(steps));
  }

  // ----- The contract rows -----

  /** The commits of the log that name a contract all name it so. */
  ghost predicate NamedSo(log: seq<Entry>, contractId: string, name: string) {
    forall n :: 0 <= n < |log| && log[n].task.contractId == contractId ==> log[n].task.filename == name
  }

  ghost predicate Begun(log: seq<Entry>, contractId: string) {
    exists n :: 0 <= n < |log| && log[n].task.contractId == contractId && log[n].progress > 0
  }

  predicate HasName(s: Stores, contractId: string, name: string) {
    contractId in s.contracts && s.contracts[contractId] == name
  }

  lemma {:induction false} AdvanceNames(embed: string -> Embedding, t: Task, k: nat, s: Stores, contractId: string,
                                        name: string)
    requires t.contractId == contractId ==> t.filename == name
    requires HasName(s, contractId, name) || (t.contractId == contractId && k > 0)
    ensures HasName(Advance(embed, t, k, s), contractId, name)
  {
    if k > 1 || (k == 1 && HasName(s, contractId, name)) { AdvanceNames(embed, t, k - 1, s, contractId, name); }
  }

  lemma {:induction false} ReplayNames(embed: string -> Embedding, log: seq<Entry>, s: Stores, contractId: string,
                                       name: string)
    requires NamedSo(log, contractId, name) && (HasName(s, contractId, name) || Begun(log, contractId))
    ensures HasName(Replay(embed, log, s), contractId, name)
  {
    if log != [] {
      var e := log[0];
      var next := Advance(embed, e.task, e.progress, s);
      if HasName(s, contractId, name) || (e.task.contractId == contractId && e.progress > 0) {
        AdvanceNames(embed, e.task, e.progress, s, contractId, name);
      } else {
        var n :| 0 <= n < |log| && log[n].task.contractId == contractId && log[n].progress > 0;
        assert log[1..][n - 1] == log[n];
      }
      ReplayNames(embed, log[1..], next, contractId, name);
    }
  }

  /** Once an attempt at a document's task has returned, its contract row carries the document's title. */
  lemma ReturnedIsNamed(cfg: Config, ops: TextOps, docs: seq<Document>, steps: seq<Step>, ring: map<int, string>,
                        i: nat)
    requires HexDigests(ops.sha1) && TagsApart(ops, docs) && TitlesApart(ops, docs)
    requires IngestRun(cfg, ops, docs, steps, ring)
    requires i < |docs| && Returned(Run(cfg, steps, Fresh(ring, EMPTY)), TaskFor(Parsed(ops, docs[i])))
    ensures StartsOf(Parsed(ops, docs[i]).contractId, ops.sha1(docs[i].title), 16)
    ensures HasName(Run(cfg, steps, Fresh(ring, EMPTY)).stores, Parsed(ops, docs[i]).contractId, docs[i].title)
  {
    ParsedIsParse(ops, docs[i]);
    FreshInv(ring, EMPTY);
    RunKeepsInv(cfg, steps, Fresh(ring, EMPTY));
    ParsedColocated(cfg, ops, docs, steps, ring);
    RunsAreSerializable(cfg, steps, ring, EMPTY);
    ShownEmpty(Scores(steps));
    NamedInStores(cfg, ops, docs, Scores(steps), Dispatched(steps), Run(cfg, steps, Fresh(ring, EMPTY)), i);
  }

  lemma NamedInStores(cfg: Config, ops: TextOps, docs: seq<Document>, scoring: bool, tasks: seq<Task>, s: Pool, i: nat)
    requires HexDigests(ops.sha1) && TitlesApart(ops, docs) && FromDocuments(ops, docs, tasks)
    requires Inv(s) && Logged(s.log) == tasks && Shown(scoring, s.stores) == Replay(cfg.embed, s.log, EMPTY)
    requires i < |docs| && Returned(s, TaskFor(Parsed(ops, docs[i])))
    ensures HasName(s.stores, Parsed(ops, docs[i]).contractId, docs[i].title)
  {
    ReturnedBegan(s, TaskFor(Parsed(ops, docs[i])));
    LogNamed(ops, docs, tasks, s.log, i);
    ReplayNames(cfg.embed, s.log, EMPTY, Parsed(ops, docs[i]).contractId, docs[i].title);
    assert s.stores.contracts == Shown(scoring, s.stores).contracts;
  }

  lemma ReturnedBegan(s: Pool, t: Task)
    requires Inv(s) && Returned(s, t) && t.kind == INGEST_CONTRACT
    ensures Begun(s.log, t.contractId)
  {
    var n :| 0 <= n < |s.log| && s.log[n].task == t && s.log[n].outcome == Done;
    assert EntryOk(s.log[n]);
  }

  lemma LogNamed(ops: TextOps, docs: seq<Document>, tasks: seq<Task>, log: seq<Entry>, i: nat)
    requires HexDigests(ops.sha1) && TitlesApart(ops, docs) && FromDocuments(ops, docs, tasks)
    requires Logged(log) == tasks && i < |docs|
    ensures NamedSo(log, Parsed(ops, docs[i]).contractId, docs[i].title)
  {
    forall n | 0 <= n < |log| && log[n].task.contractId == Parsed(ops, docs[i]).contractId
      ensures log[n].task.filename == docs[i].title
    {
      assert Logged(log)[n] == log[n].task;
      assert log[n].task in tasks;
      var j :| 0 <= j < |docs| && log[n].task == TaskFor(Parsed(ops, docs[j]));
    }
  }
}
