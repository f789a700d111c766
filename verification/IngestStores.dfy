/** The three stores an ingest writes, and the separate commits a worker makes to them. */
module IngestStores {
  import opened Options

  const INGEST_CONTRACT: string := "ingest_contract"

  datatype Clause = Clause(id: string, category: string, text: string)

  datatype Task = Task(kind: string, routingKey: string, contractId: string, filename: string, clauses: seq<Clause>)

  type Embedding = seq<real>

  datatype Vector = Vector(values: Embedding, contractId: string, category: string)

  datatype Level = Low | Medium | High

  /** A row of `clauses`. `risk` stands for both risk columns, which are written together, the rationale
      being fixed by the level; the `embedded_at` timestamp is not modelled. */
  datatype Row = Row(category: string, text: string, vectorId: string, risk: Option<Level>)

  /** The primary key of `clauses`: contract id, clause id. */
  type Key = (string, string)

  datatype Stores = Stores(contracts: map<string, string>, vectors: map<string, Vector>, rows: map<Key, Row>)

  // ----- What each commit writes -----

  /** A batched vector upsert: the last record of an id wins. */
  function PutVectors(vectors: map<string, Vector>, embed: string -> Embedding, contractId: string,
                      clauses: seq<Clause>): map<string, Vector> {
    if clauses == [] then vectors
    else
      var c := clauses[|clauses| - 1];
      var before := PutVectors(vectors, embed, contractId, clauses[..|clauses| - 1]);
      before[c.id := Vector(embed(c.text), contractId, c.category)]
  }

  /** One insert; on conflict the text and the vector id change, the category and the risk do not. */
  function Upserted(prior: Option<Row>, c: Clause): Row {
    match prior
    case None => Row(c.category, c.text, c.id, None)
    case Some(row) => row.(text := c.text, vectorId := c.id)
  }

  function Lookup<K, V>(m: map<K, V>, key: K): Option<V> {
    if key in m then Some(m[key]) else None
  }

  function PutRow(rows: map<Key, Row>, contractId: string, c: Clause): map<Key, Row> {
    rows[(contractId, c.id) := Upserted(Lookup(rows, (contractId, c.id)), c)]
  }

  function PutRows(rows: map<Key, Row>, contractId: string, clauses: seq<Clause>): map<Key, Row> {
    if clauses == [] then rows
    else PutRow(PutRows(rows, contractId, clauses[..|clauses| - 1]), contractId, clauses[|clauses| - 1])
  }

  /** How many commits a worker makes for a task: none for a kind without a handler, only the
      contract row for a contract without clauses. */
  function Commits(t: Task): nat {
    if t.kind != INGEST_CONTRACT then 0 else if t.clauses == [] then 1 else 3
  }

  /** The commit number `k` of a task: the contract row, then the vectors, then all clause rows
      in one transaction. */
  function Commit(embed: string -> Embedding, t: Task, k: nat, s: Stores): Stores {
    if k == 0 then s.(contracts := s.contracts[t.contractId := t.filename])
    else if k == 1 then s.(vectors := PutVectors(s.vectors, embed, t.contractId, t.clauses))
    else s.(rows := PutRows(s.rows, t.contractId, t.clauses))
  }

  /** The stores once the first `k` commits of a task are made. */
  function Advance(embed: string -> Embedding, t: Task, k: nat, s: Stores): Stores {
    if k == 0 then s else Commit(embed, t, k - 1, Advance(embed, t, k - 1, s))
  }

  /** A complete attempt at a task. */
  function Process(embed: string -> Embedding, t: Task, s: Stores): Stores {
    Advance(embed, t, Commits(t), s)
  }

  // ----- Reading a batch of writes back -----

  predicate Occurs(clauses: seq<Clause>, id: string) {
    exists i :: 0 <= i < |clauses| && clauses[i].id == id
  }

  /** What the rows of one id become under a batch. */
  function Folded(clauses: seq<Clause>, id: string, prior: Option<Row>): Option<Row> {
    if clauses == [] then prior
    else
      var before := Folded(clauses[..|clauses| - 1], id, prior);
      var c := clauses[|clauses| - 1];
      if c.id == id then Some(Upserted(before, c)) else before
  }

  /** The last clause of a batch with a given id. */
  function LastOf(clauses: seq<Clause>, id: string): Clause
    requires Occurs(clauses, id)
  {
    var c := clauses[|clauses| - 1];
    if c.id == id then c else LastOf(clauses[..|clauses| - 1], id)
  }

  function FirstOf(clauses: seq<Clause>, id: string): Clause
    requires Occurs(clauses, id)
  {
    if Occurs(clauses[..|clauses| - 1], id) then FirstOf(clauses[..|clauses| - 1], id) else clauses[|clauses| - 1]
  }

  lemma {:induction false} FirstAndLast(clauses: seq<Clause>, id: string)
    requires Occurs(clauses, id)
    ensures FirstOf(clauses, id) in clauses && FirstOf(clauses, id).id == id
    ensures LastOf(clauses, id) in clauses && LastOf(clauses, id).id == id
  {
    var n := |clauses| - 1;
    if clauses[n].id != id {
      var i :| 0 <= i < |clauses| && clauses[i].id == id;
      assert clauses[..n][i].id == id;
      FirstAndLast(clauses[..n], id);
    } else if Occurs(clauses[..n], id) {
      FirstAndLast(clauses[..n], id);
    }
  }

  lemma {:induction false} PutRowsReads(rows: map<Key, Row>, contractId: string, clauses: seq<Clause>, key: Key)
    ensures Lookup(PutRows(rows, contractId, clauses), key) ==
            if key.0 == contractId then Folded(clauses, key.1, Lookup(rows, key)) else Lookup(rows, key)
  {
    if clauses != [] {
      PutRowsReads(rows, contractId, clauses[..|clauses| - 1], key);
    }
  }

  /** An upsert batch fixes text and vector id whatever was there, and never changes the
      category or the risk of a row that was. */
  lemma {:induction false} FoldedShape(clauses: seq<Clause>, id: string, prior: Option<Row>)
    ensures !Occurs(clauses, id) ==> Folded(clauses, id, prior) == prior
    ensures Occurs(clauses, id) ==>
              var row := Folded(clauses, id, prior);
              && row.Some? && row.value.text == LastOf(clauses, id).text && row.value.vectorId == id
              && (prior.Some? ==> row.value.category == prior.value.category && row.value.risk == prior.value.risk)
              && (prior.None? ==> row.value.category == FirstOf(clauses, id).category && row.value.risk == None)
  {
    if clauses != [] {
      var n := |clauses| - 1;
      FoldedShape(clauses[..n], id, prior);
      if clauses[n].id != id && Occurs(clauses, id) {
        var i :| 0 <= i < |clauses| && clauses[i].id == id;
        assert clauses[..n][i].id == id;
      }
    }
  }

  lemma FoldedTwice(clauses: seq<Clause>, id: string, prior: Option<Row>)
    ensures Folded(clauses, id, Folded(clauses, id, prior)) == Folded(clauses, id, prior)
  {
    FoldedShape(clauses, id, prior);
    FoldedShape(clauses, id, Folded(clauses, id, prior));
  }

  lemma SameLookups<K, V>(a: map<K, V>, b: map<K, V>)
    requires forall k :: Lookup(a, k) == Lookup(b, k)
    ensures a == b
  {
    assert forall k :: k in a <==> Lookup(a, k).Some?;
    assert forall k :: k in b <==> Lookup(b, k).Some?;
    assert a.Keys == b.Keys;
    assert forall k :: k in a ==> Lookup(a, k) == Some(a[k]);
  }

  /** What a batch of vectors writes, whatever was stored: of each id, the last clause. */
  lemma {:induction false} PutVectorsReads(vectors: map<string, Vector>, embed: string -> Embedding,
                                           contractId: string, clauses: seq<Clause>, id: string)
    ensures Lookup(PutVectors(vectors, embed, contractId, clauses), id) ==
            if Occurs(clauses, id) then
              Some(Vector(embed(LastOf(clauses, id).text), contractId, LastOf(clauses, id).category))
            else Lookup(vectors, id)
  {
    if clauses != [] {
      var n := |clauses| - 1;
      PutVectorsReads(vectors, embed, contractId, clauses[..n], id);
      if clauses[n].id != id && Occurs(clauses, id) {
        var i :| 0 <= i < |clauses| && clauses[i].id == id;
        assert clauses[..n][i].id == id;
      }
      if Occurs(clauses[..n], id) {
        var i :| 0 <= i < n && clauses[..n][i].id == id;
        assert clauses[i].id == id;
      }
    }
  }

  // ----- Retries -----

  /** Each commit made twice in a row has the effect of one. */
  lemma CommitTwice(embed: string -> Embedding, t: Task, k: nat, s: Stores)
    ensures Commit(embed, t, k, Commit(embed, t, k, s)) == Commit(embed, t, k, s)
  {
    if k == 1 {
      var once := PutVectors(s.vectors, embed, t.contractId, t.clauses);
      var twice := PutVectors(once, embed, t.contractId, t.clauses);
      forall id ensures Lookup(twice, id) == Lookup(once, id) {
        PutVectorsReads(s.vectors, embed, t.contractId, t.clauses, id);
        PutVectorsReads(once, embed, t.contractId, t.clauses, id);
      }
      SameLookups(twice, once);
    } else if k > 1 {
      var once := PutRows(s.rows, t.contractId, t.clauses);
      var twice := PutRows(once, t.contractId, t.clauses);
      forall key ensures Lookup(twice, key) == Lookup(once, key) {
        PutRowsReads(s.rows, t.contractId, t.clauses, key);
        PutRowsReads(once, t.contractId, t.clauses, key);
        FoldedTwice(t.clauses, key.1, Lookup(s.rows, key));
      }
      SameLookups(twice, once);
    }
  }

  /** Two tasks may be reordered: where they name the same contract they give it the same file, and
      where they use the same clause id they write the same record. */
  ghost predicate Compatible(t: Task, u: Task) {
    && (t.contractId == u.contractId ==> t.filename == u.filename)
    && forall id :: Occurs(t.clauses, id) && Occurs(u.clauses, id) ==> SameRecord(t, u, id)
  }

  predicate SameRecord(t: Task, u: Task, id: string)
    requires Occurs(t.clauses, id) && Occurs(u.clauses, id)
  {
    && t.contractId == u.contractId
    && LastOf(t.clauses, id) == LastOf(u.clauses, id)
    && FirstOf(t.clauses, id).category == FirstOf(u.clauses, id).category
  }

  lemma FoldedCommutes(t: Task, u: Task, id: string, prior: Option<Row>)
    requires Compatible(t, u)
    ensures Folded(t.clauses, id, Folded(u.clauses, id, prior)) == Folded(u.clauses, id, Folded(t.clauses, id, prior))
  {
    FoldedShape(t.clauses, id, prior);
    FoldedShape(u.clauses, id, prior);
    FoldedShape(t.clauses, id, Folded(u.clauses, id, prior));
    FoldedShape(u.clauses, id, Folded(t.clauses, id, prior));
  }

  lemma VectorsCommute(embed: string -> Embedding, t: Task, u: Task, vectors: map<string, Vector>)
    requires Compatible(t, u)
    ensures PutVectors(PutVectors(vectors, embed, u.contractId, u.clauses), embed, t.contractId, t.clauses) ==
            PutVectors(PutVectors(vectors, embed, t.contractId, t.clauses), embed, u.contractId, u.clauses)
  {
    var afterU := PutVectors(vectors, embed, u.contractId, u.clauses);
    var afterT := PutVectors(vectors, embed, t.contractId, t.clauses);
    var ut := PutVectors(afterU, embed, t.contractId, t.clauses);
    var tu := PutVectors(afterT, embed, u.contractId, u.clauses);
    forall id ensures Lookup(ut, id) == Lookup(tu, id) {
      PutVectorsReads(vectors, embed, u.contractId, u.clauses, id);
      PutVectorsReads(vectors, embed, t.contractId, t.clauses, id);
      PutVectorsReads(afterU, embed, t.contractId, t.clauses, id);
      PutVectorsReads(afterT, embed, u.contractId, u.clauses, id);
    }
    SameLookups(ut, tu);
  }

  lemma RowsCommute(t: Task, u: Task, rows: map<Key, Row>)
    requires Compatible(t, u)
    ensures PutRows(PutRows(rows, u.contractId, u.clauses), t.contractId, t.clauses) ==
            PutRows(PutRows(rows, t.contractId, t.clauses), u.contractId, u.clauses)
  {
    var afterU := PutRows(rows, u.contractId, u.clauses);
    var afterT := PutRows(rows, t.contractId, t.clauses);
    var ut := PutRows(afterU, t.contractId, t.clauses);
    var tu := PutRows(afterT, u.contractId, u.clauses);
    forall key ensures Lookup(ut, key) == Lookup(tu, key) {
      PutRowsReads(rows, u.contractId, u.clauses, key);
      PutRowsReads(rows, t.contractId, t.clauses, key);
      PutRowsReads(afterU, t.contractId, t.clauses, key);
      PutRowsReads(afterT, u.contractId, u.clauses, key);
      FoldedCommutes(t, u, key.1, Lookup(rows, key));
    }
    SameLookups(ut, tu);
  }

  lemma CommitsCommute(embed: string -> Embedding, t: Task, k: nat, u: Task, m: nat, s: Stores)
    requires Compatible(t, u)
    ensures Commit(embed, t, k, Commit(embed, u, m, s)) == Commit(embed, u, m, Commit(embed, t, k, s))
  {
    if k == 1 && m == 1 {
      VectorsCommute(embed, t, u, s.vectors);
    } else if k > 1 && m > 1 {
      RowsCommute(t, u, s.rows);
    }
  }

  lemma {:induction false} AdvanceCommutes(embed: string -> Embedding, t: Task, k: nat, u: Task, m: nat, s: Stores)
    requires Compatible(t, u)
    ensures Commit(embed, t, k, Advance(embed, u, m, s)) == Advance(embed, u, m, Commit(embed, t, k, s))
  {
    if m > 0 {
      var before := Advance(embed, u, m - 1, s);
      CommitsCommute(embed, t, k, u, m - 1, before);
      AdvanceCommutes(embed, t, k, u, m - 1, s);
      assert Advance(embed, u, m, s) == Commit(embed, u, m - 1, before);
    }
  }

  lemma {:induction false} ProcessCommutes(embed: string -> Embedding, t: Task, k: nat, u: Task, s: Stores)
    requires Compatible(t, u)
    ensures Advance(embed, t, k, Process(embed, u, s)) == Process(embed, u, Advance(embed, t, k, s))
  {
    if k > 0 {
      ProcessCommutes(embed, t, k - 1, u, s);
      AdvanceCommutes(embed, t, k - 1, u, Commits(u), Advance(embed, t, k - 1, s));
    }
  }

  lemma ProcessShape(embed: string -> Embedding, t: Task, s: Stores)
    requires t.kind == INGEST_CONTRACT
    ensures Process(embed, t, s) ==
            Stores(s.contracts[t.contractId := t.filename],
                   PutVectors(s.vectors, embed, t.contractId, t.clauses),
                   PutRows(s.rows, t.contractId, t.clauses))
  {
    if t.clauses == [] {
      assert Process(embed, t, s) == Advance(embed, t, 1, s) == Commit(embed, t, 0, Advance(embed, t, 0, s));
    } else {
      assert Process(embed, t, s) == Commit(embed, t, 2, Advance(embed, t, 2, s));
      assert Advance(embed, t, 2, s) == Commit(embed, t, 1, Advance(embed, t, 1, s));
      assert Advance(embed, t, 1, s) == Commit(embed, t, 0, Advance(embed, t, 0, s));
    }
  }

  const EMPTY: Stores := Stores(map[], map[], map[])

  /** The order of two ingests shows, already in empty stores, when they are not compatible. */
  lemma OrderShows(embed: string -> Embedding, t: Task, u: Task)
    requires t.kind == u.kind == INGEST_CONTRACT && !Compatible(t, u)
    ensures Process(embed, t, Process(embed, u, EMPTY)) != Process(embed, u, Process(embed, t, EMPTY))
  {
    var ut := Process(embed, t, Process(embed, u, EMPTY));
    var tu := Process(embed, u, Process(embed, t, EMPTY));
    ProcessShape(embed, t, EMPTY);
    ProcessShape(embed, u, EMPTY);
    ProcessShape(embed, t, Process(embed, u, EMPTY));
    ProcessShape(embed, u, Process(embed, t, EMPTY));
    if t.contractId == u.contractId && t.filename != u.filename {
      assert ut.contracts[t.contractId] != tu.contracts[t.contractId];
    } else {
      var id :| Occurs(t.clauses, id) && Occurs(u.clauses, id) && !SameRecord(t, u, id);
      RecordShows(embed, t, u, id);
    }
  }

  lemma RecordShows(embed: string -> Embedding, t: Task, u: Task, id: string)
    requires Occurs(t.clauses, id) && Occurs(u.clauses, id) && !SameRecord(t, u, id)
    ensures PutVectors(PutVectors(map[], embed, u.contractId, u.clauses), embed, t.contractId, t.clauses) !=
            PutVectors(PutVectors(map[], embed, t.contractId, t.clauses), embed, u.contractId, u.clauses) ||
            PutRows(PutRows(map[], u.contractId, u.clauses), t.contractId, t.clauses) !=
            PutRows(PutRows(map[], t.contractId, t.clauses), u.contractId, u.clauses)
  {
    var key := (t.contractId, id);
    PutVectorsReads(PutVectors(map[], embed, u.contractId, u.clauses), embed, t.contractId, t.clauses, id);
    PutVectorsReads(PutVectors(map[], embed, t.contractId, t.clauses), embed, u.contractId, u.clauses, id);
    if t.contractId == u.contractId && LastOf(t.clauses, id).category == LastOf(u.clauses, id).category {
      FirstAndLast(t.clauses, id);
      FirstAndLast(u.clauses, id);
      PutRowsReads(map[], u.contractId, u.clauses, key);
      PutRowsReads(map[], t.contractId, t.clauses, key);
      PutRowsReads(PutRows(map[], u.contractId, u.clauses), t.contractId, t.clauses, key);
      PutRowsReads(PutRows(map[], t.contractId, t.clauses), u.contractId, u.clauses, key);
      FoldedShape(t.clauses, id, None);
      FoldedShape(u.clauses, id, None);
      FoldedShape(t.clauses, id, Folded(u.clauses, id, None));
      FoldedShape(u.clauses, id, Folded(t.clauses, id, None));
    }
  }

  ghost predicate Reorderable(embed: string -> Embedding, t: Task, u: Task) {
    forall s :: Process(embed, t, Process(embed, u, s)) == Process(embed, u, Process(embed, t, s))
  }

  /** The order of two ingests is immaterial, whatever is stored, exactly when they are compatible. */
  lemma ReorderableExactly(embed: string -> Embedding, t: Task, u: Task)
    requires t.kind == u.kind == INGEST_CONTRACT
    ensures Reorderable(embed, t, u) <==> Compatible(t, u)
  {
    if Compatible(t, u) {
      forall s ensures Process(embed, t, Process(embed, u, s)) == Process(embed, u, Process(embed, t, s)) {
        ProcessCommutes(embed, t, Commits(t), u, s);
      }
    } else {
      OrderShows(embed, t, u);
    }
  }

  /** Repeating a commit that an attempt has already made changes nothing. */
  lemma {:induction false} AlreadyCommitted(embed: string -> Embedding, t: Task, k: nat, m: nat, s: Stores)
    requires k < m
    ensures Commit(embed, t, k, Advance(embed, t, m, s)) == Advance(embed, t, m, s)
  {
    var before := Advance(embed, t, m - 1, s);
    if k == m - 1 {
      CommitTwice(embed, t, k, before);
    } else {
      CommitsCommute(embed, t, k, t, m - 1, before);
      AlreadyCommitted(embed, t, k, m - 1, s);
    }
  }

  /** An attempt on top of an earlier attempt at the same task: the further of the two. */
  lemma {:induction false} Absorbed(embed: string -> Embedding, t: Task, k: nat, m: nat, s: Stores)
    ensures Advance(embed, t, k, Advance(embed, t, m, s)) == Advance(embed, t, if k <= m then m else k, s)
  {
    if k > 0 {
      Absorbed(embed, t, k - 1, m, s);
      if k <= m { AlreadyCommitted(embed, t, k - 1, m, s); }
    }
  }

  /** Attempts at one task, each aborted after some number of its commits. */
  function Attempts(embed: string -> Embedding, t: Task, aborted: seq<nat>, s: Stores): Stores {
    if aborted == [] then s
    else Advance(embed, t, aborted[|aborted| - 1], Attempts(embed, t, aborted[..|aborted| - 1], s))
  }

  /** A retried task is safe: from any stores, any aborted attempts and then a complete one leave
      what a single complete attempt leaves. */
  lemma {:induction false} RetryIsSafe(embed: string -> Embedding, t: Task, aborted: seq<nat>, s: Stores)
    requires forall i :: 0 <= i < |aborted| ==> aborted[i] <= Commits(t)
    ensures Process(embed, t, Attempts(embed, t, aborted, s)) == Process(embed, t, s)
  {
    if aborted != [] {
      var n := |aborted| - 1;
      Absorbed(embed, t, Commits(t), aborted[n], Attempts(embed, t, aborted[..n], s));
      RetryIsSafe(embed, t, aborted[..n], s);
    }
  }

  // ----- Erasing the risk columns, which ingest never writes -----

  function WithoutRisk(rows: map<Key, Row>): map<Key, Row> {
    map key | key in rows :: rows[key].(risk := None)
  }

  function EraseRisk(s: Stores): Stores {
    s.(rows := WithoutRisk(s.rows))
  }

  lemma {:induction false} PutRowsErased(rows: map<Key, Row>, contractId: string, clauses: seq<Clause>)
    ensures WithoutRisk(PutRows(rows, contractId, clauses)) == PutRows(WithoutRisk(rows), contractId, clauses)
  {
    if clauses != [] {
      PutRowsErased(rows, contractId, clauses[..|clauses| - 1]);
    }
  }

  lemma CommitErased(embed: string -> Embedding, t: Task, k: nat, s: Stores)
    ensures EraseRisk(Commit(embed, t, k, s)) == Commit(embed, t, k, EraseRisk(s))
  {
    PutRowsErased(s.rows, t.contractId, t.clauses);
  }
}
