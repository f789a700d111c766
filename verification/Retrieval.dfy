/** The agent's tools on the stores: semantic search with hydration, and risk scoring. */
module Retrieval {
  import opened Options
  import opened IngestStores
  import opened RiskHeuristic
  import opened RiskLevels
  import opened Geometry
  import opened IngestWorker
  import Pool
  import CrossStore

  datatype Match = Match(id: string, score: real)

  datatype Found = Found(clauseId: string, contractId: string, category: string, text: string)

  datatype SearchResult = SearchResult(found: Found, score: real)

  /** A row as the hydration query returns it. */
  predicate RowFor(rows: map<Key, Row>, f: Found) {
    var key: Key := (f.contractId, f.clauseId);
    key in rows && rows[key].category == f.category && rows[key].text == f.text
  }

  ghost predicate HasRow(rows: map<Key, Row>, id: string) {
    exists key :: key in rows && key.1 == id
  }

  /** The hydration query's answer, by id: a row for exactly the ids that have one. */
  ghost predicate Answers(rows: map<Key, Row>, byId: map<string, Found>, ids: set<string>) {
    && (forall id :: id in byId ==> id in ids && byId[id].clauseId == id && RowFor(rows, byId[id]))
    && (forall id :: id in ids && HasRow(rows, id) ==> id in byId)
  }

  /** The matches that have a row, in their order. */
  function Hydrated(matches: seq<Match>, byId: map<string, Found>): seq<SearchResult> {
    if matches == [] then []
    else
      var m := matches[|matches| - 1];
      Hydrated(matches[..|matches| - 1], byId) +
      if m.id in byId then [SearchResult(byId[m.id], m.score)] else []
  }

  /** The loop of the search tool that joins matches and rows. */
  method Hydrate(matches: seq<Match>, byId: map<string, Found>) returns (results: seq<SearchResult>)
    ensures results == Hydrated(matches, byId) && Joins(results, matches, byId)
  {
    HydratedJoins(matches, byId);
    results := [];
    var i := 0;
    while i < |matches|
      invariant 0 <= i <= |matches| && results == Hydrated(matches[..i], byId)
    {
      assert matches[..i + 1][..i] == matches[..i];
      if matches[i].id in byId {
        results := results + [SearchResult(byId[matches[i].id], matches[i].score)];
      }
      i := i + 1;
    }
    assert matches[..i] == matches;
  }

  ghost predicate Descending(scores: seq<real>) {
    forall i, j :: 0 <= i < j < |scores| ==> scores[i] >= scores[j]
  }

  function ScoresOf(results: seq<SearchResult>): seq<real> {
    seq(|results|, i requires 0 <= i < |results| => results[i].score)
  }

  function MatchScores(matches: seq<Match>): seq<real> {
    seq(|matches|, i requires 0 <= i < |matches| => matches[i].score)
  }

  ghost predicate Listed(results: seq<SearchResult>, id: string) {
    exists i :: 0 <= i < |results| && results[i].found.clauseId == id
  }

  ghost predicate MatchedBy(matches: seq<Match>, r: SearchResult) {
    exists k :: 0 <= k < |matches| && matches[k] == Match(r.found.clauseId, r.score)
  }

  lemma {:induction false} HydratedFound(rows: map<Key, Row>, matches: seq<Match>, byId: map<string, Found>,
                                         ids: set<string>)
    requires Answers(rows, byId, ids)
    ensures forall i :: 0 <= i < |Hydrated(matches, byId)| ==>
              RowFor(rows, Hydrated(matches, byId)[i].found) && MatchedBy(matches, Hydrated(matches, byId)[i])
  {
    if matches != [] {
      var n := |matches| - 1;
      var before, after := Hydrated(matches[..n], byId), Hydrated(matches, byId);
      HydratedFound(rows, matches[..n], byId, ids);
      forall i | 0 <= i < |after| ensures RowFor(rows, after[i].found) && MatchedBy(matches, after[i]) {
        if i < |before| {
          assert after[i] == before[i];
          StillMatched(matches, before[i]);
        } else {
          assert matches[n] == Match(after[i].found.clauseId, after[i].score);
        }
      }
    }
  }

  lemma StillMatched(matches: seq<Match>, r: SearchResult)
    requires matches != [] && MatchedBy(matches[..|matches| - 1], r)
    ensures MatchedBy(matches, r)
  {
    var k :| 0 <= k < |matches| - 1 && matches[..|matches| - 1][k] == Match(r.found.clauseId, r.score);
    assert matches[k] == Match(r.found.clauseId, r.score);
  }

  lemma {:induction false} HydratedLists(matches: seq<Match>, byId: map<string, Found>, i: nat)
    requires i < |matches| && matches[i].id in byId
    ensures exists k :: 0 <= k < |Hydrated(matches, byId)| && Hydrated(matches, byId)[k].found == byId[matches[i].id]
  {
    var n := |matches| - 1;
    var before, after := Hydrated(matches[..n], byId), Hydrated(matches, byId);
    if i < n {
      HydratedLists(matches[..n], byId, i);
      var k :| 0 <= k < |before| && before[k].found == byId[matches[i].id];
      assert after[k].found == byId[matches[i].id];
    } else {
      assert after[|before|].found == byId[matches[i].id];
    }
  }

  lemma {:induction false} HydratedDescends(rows: map<Key, Row>, matches: seq<Match>, byId: map<string, Found>,
                                            ids: set<string>)
    requires Answers(rows, byId, ids) && Descending(MatchScores(matches))
    ensures Descending(ScoresOf(Hydrated(matches, byId)))
  {
    if matches != [] {
      var n := |matches| - 1;
      assert MatchScores(matches[..n]) == MatchScores(matches)[..n];
      HydratedDescends(rows, matches[..n], byId, ids);
      HydratedFound(rows, matches[..n], byId, ids);
      HydratedScores(matches, byId, n);
    }
  }

  /** Hydration keeps the order of the scores, drops exactly the matches without a row, and gives
      each result the score of its own clause. */
  lemma HydratedShape(rows: map<Key, Row>, matches: seq<Match>, byId: map<string, Found>, ids: set<string>)
    requires Answers(rows, byId, ids) && forall i :: 0 <= i < |matches| ==> matches[i].id in ids
    ensures forall i :: 0 <= i < |Hydrated(matches, byId)| ==>
              RowFor(rows, Hydrated(matches, byId)[i].found) && MatchedBy(matches, Hydrated(matches, byId)[i])
    ensures forall i :: 0 <= i < |matches| ==>
              (HasRow(rows, matches[i].id) <==> Listed(Hydrated(matches, byId), matches[i].id))
    ensures Descending(MatchScores(matches)) ==> Descending(ScoresOf(Hydrated(matches, byId)))
  {
    HydratedFound(rows, matches, byId, ids);
    forall i | 0 <= i < |matches|
      ensures HasRow(rows, matches[i].id) <==> Listed(Hydrated(matches, byId), matches[i].id)
    {
      ListedHasRow(rows, Hydrated(matches, byId), matches[i].id);
      if HasRow(rows, matches[i].id) { HydratedLists(matches, byId, i); }
    }
    if Descending(MatchScores(matches)) { HydratedDescends(rows, matches, byId, ids); }
  }

  /** Each result shows the row found for a match, with its score. */
  predicate ShowsMatches(results: seq<SearchResult>, kept: seq<Match>, byId: map<string, Found>) {
    && |results| == |kept|
    && forall i :: 0 <= i < |kept| ==>
         kept[i].id in byId && results[i].found == byId[kept[i].id] && results[i].score == kept[i].score
  }

  predicate MatchFound(matches: seq<Match>, byId: map<string, Found>, k: nat) {
    k < |matches| && matches[k].id in byId
  }

  /** One result for each match that has a row, in the order of the matches. */
  ghost predicate Joins(results: seq<SearchResult>, matches: seq<Match>, byId: map<string, Found>) {
    exists kept: seq<Match> :: Selects(kept, matches, (k: nat) => MatchFound(matches, byId, k)) &&
                               ShowsMatches(results, kept, byId)
  }

  lemma {:induction false} HydratedJoins(matches: seq<Match>, byId: map<string, Found>)
    ensures Joins(Hydrated(matches, byId), matches, byId)
  {
    var q := (k: nat) => MatchFound(matches, byId, k);
    if matches == [] {
      SelectsNone<Match>(q);
      assert ShowsMatches([], [], byId);
    } else {
      var n := |matches| - 1;
      HydratedJoins(matches[..n], byId);
      JoinsOneMore(Hydrated(matches[..n], byId), matches, byId);
      assert Hydrated(matches[..n], byId) + [] == Hydrated(matches[..n], byId);
    }
  }

  lemma KeptOneMore(kept: seq<Match>, matches: seq<Match>, byId: map<string, Found>)
    requires matches != []
    requires Selects(kept, matches[..|matches| - 1], (k: nat) => MatchFound(matches[..|matches| - 1], byId, k))
    ensures var m := matches[|matches| - 1];
            Selects(if m.id in byId then kept + [m] else kept, matches, (k: nat) => MatchFound(matches, byId, k))
  {
    var before := matches[..|matches| - 1];
    forall k: nat | k < |before| ensures MatchFound(before, byId, k) == MatchFound(matches, byId, k) {}
    SelectsLast(kept, matches, (k: nat) => MatchFound(before, byId, k), (k: nat) => MatchFound(matches, byId, k));
  }

  lemma JoinsOneMore(results: seq<SearchResult>, matches: seq<Match>, byId: map<string, Found>)
    requires matches != [] && Joins(results, matches[..|matches| - 1], byId)
    ensures var m := matches[|matches| - 1];
            Joins(if m.id in byId then results + [SearchResult(byId[m.id], m.score)] else results, matches, byId)
  {
    var before, m := matches[..|matches| - 1], matches[|matches| - 1];
    var kept: seq<Match> :| Selects(kept, before, (k: nat) => MatchFound(before, byId, k)) &&
                            ShowsMatches(results, kept, byId);
    KeptOneMore(kept, matches, byId);
    if m.id in byId { assert ShowsMatches(results + [SearchResult(byId[m.id], m.score)], kept + [m], byId); }
  }

  lemma ListedHasRow(rows: map<Key, Row>, results: seq<SearchResult>, id: string)
    requires forall i :: 0 <= i < |results| ==> RowFor(rows, results[i].found)
    ensures Listed(results, id) ==> HasRow(rows, id)
  {
    if Listed(results, id) {
      var i :| 0 <= i < |results| && results[i].found.clauseId == id;
      var key: Key := (results[i].found.contractId, id);
      assert key in rows;
    }
  }

  lemma HydratedScores(matches: seq<Match>, byId: map<string, Found>, n: nat)
    requires matches != [] && n == |matches| - 1
    requires Descending(MatchScores(matches))
    requires Descending(MatchScores(matches[..n])) ==> Descending(ScoresOf(Hydrated(matches[..n], byId)))
    requires forall i :: 0 <= i < |Hydrated(matches[..n], byId)| ==>
               MatchedBy(matches[..n], Hydrated(matches[..n], byId)[i])
    ensures Descending(ScoresOf(Hydrated(matches, byId)))
  {
    var scores := MatchScores(matches);
    assert MatchScores(matches[..n]) == scores[..n];
    var before, after := Hydrated(matches[..n], byId), Hydrated(matches, byId);
    forall i, j | 0 <= i < j < |after| ensures after[i].score >= after[j].score {
      if j < |before| {
        assert ScoresOf(before)[i] >= ScoresOf(before)[j];
      } else {
        assert MatchedBy(matches[..n], before[i]);
        var k :| 0 <= k < n && matches[..n][k] == Match(before[i].found.clauseId, before[i].score);
        assert scores[k] == matches[k].score && scores[n] == matches[n].score;
      }
    }
  }

  /** The matches were scored against stored vectors. */
  ghost predicate ScoredOn(vectors: map<string, Vector>, q: Embedding, matches: seq<Match>, ids: set<string>) {
    forall i :: 0 <= i < |matches| ==>
      && matches[i].id in ids && matches[i].id in vectors
      && |vectors[matches[i].id].values| == |q|
      && matches[i].score == Dot(vectors[matches[i].id].values, q)
  }

  ghost predicate ShowsItsScore(embed: string -> Embedding, q: Embedding, r: SearchResult) {
    |embed(r.found.text)| == |q| && r.score == Dot(embed(r.found.text), q)
  }

  /** Search is sound across the stores, although it reads the vectors at one moment and the rows at
      another: when both moments agree with one book, each result shows a stored text with the score of
      that very text's embedding. */
  lemma {:induction false} SearchShowsWhatItScored(embed: string -> Embedding, book: map<string, CrossStore.Origin>,
                                                   earlier: Stores, now: Stores, q: Embedding, matches: seq<Match>,
                                                   byId: map<string, Found>, ids: set<string>)
    requires CrossStore.StoresListed(embed, book, earlier) && CrossStore.StoresListed(embed, book, now)
    requires ScoredOn(earlier.vectors, q, matches, ids) && Answers(now.rows, byId, ids)
    ensures forall i :: 0 <= i < |Hydrated(matches, byId)| ==> ShowsItsScore(embed, q, Hydrated(matches, byId)[i])
  {
    HydratedShape(now.rows, matches, byId, ids);
    forall i | 0 <= i < |Hydrated(matches, byId)| ensures ShowsItsScore(embed, q, Hydrated(matches, byId)[i]) {
      var r := Hydrated(matches, byId)[i];
      assert MatchedBy(matches, r);
      var k :| 0 <= k < |matches| && matches[k] == Match(r.found.clauseId, r.score);
      assert RowFor(now.rows, r.found);
      var key: Key := (r.found.contractId, r.found.clauseId);
      assert key in now.rows && book[key.1] == CrossStore.Origin(key.0, now.rows[key].category, now.rows[key].text);
    }
  }

  // ----- Scoring -----

  /** The level that some stored text of the clause calls for. */
  ghost predicate Graded(rows: map<Key, Row>, lower: string -> string, clauseId: string, level: Level) {
    exists key :: key in rows && key.1 == clauseId && IsGrade(lower, rows[key].text, level)
  }

  /** `after` is `before` with the level in the rows of the clause, and nothing else changed. */
  ghost predicate OnlyScored(before: Stores, after: Stores, clauseId: string, level: Level) {
    && after.contracts == before.contracts && after.vectors == before.vectors
    && after.rows.Keys == before.rows.Keys
    && forall key :: key in before.rows ==>
         && after.rows[key].category == before.rows[key].category && after.rows[key].text == before.rows[key].text
         && after.rows[key].vectorId == before.rows[key].vectorId
         && after.rows[key].risk == if key.1 == clauseId then Some(level) else before.rows[key].risk
  }

  lemma ScoredOnly(s: Stores, clauseId: string, level: Level)
    ensures OnlyScored(s, s.(rows := Pool.Scored(s.rows, Pool.Reading(clauseId, level))), clauseId, level)
  {}

  /** The first transaction: reads the clause, and grades what it read. */
  method SelectAndGrade(db: Database, lower: string -> string, clauseId: string) returns (level: Option<Level>)
    ensures level.None? <==> !HasRow(db.stores.rows, clauseId)
    ensures level.Some? ==> Graded(db.stores.rows, lower, clauseId, level.value)
  {
    var hits := set key | key in db.stores.rows && key.1 == clauseId;
    if hits == {} {
      assert !HasRow(db.stores.rows, clauseId) by {
        assert forall key :: key in db.stores.rows && key.1 == clauseId ==> key in hits;
      }
      return None;
    }
    var key := PickOne(hits);
    AssessIsGrade(lower, db.stores.rows[key].text);
    level := Some(Assess(lower, db.stores.rows[key].text));
  }

  /** The scoring tool. `others` is what other processes do to the stores between its transactions. An
      unknown clause is an error, and then nothing is written. */
  method ScoreClauseRisk(db: Database, lower: string -> string, clauseId: string, others: Stores -> Stores)
    returns (score: Option<(Level, string)>)
    modifies db
    ensures score.None? <==> !HasRow(old(db.stores.rows), clauseId)
    ensures score.None? ==> db.stores == old(db.stores)
    ensures score.Some? ==>
              var (level, rationale) := score.value;
              && Graded(old(db.stores.rows), lower, clauseId, level) && Explains(level, rationale)
              && OnlyScored(others(old(db.stores)), db.stores, clauseId, level)
  {
    var level := SelectAndGrade(db, lower, clauseId);
    if level == None {
      return None;
    }
    db.stores := others(db.stores);
    ScoredOnly(db.stores, clauseId, level.value);
    RationaleExplains(level.value);
    db.stores := db.stores.(rows := Pool.Scored(db.stores.rows, Pool.Reading(clauseId, level.value)));
    score := Some((level.value, Rationale(level.value)));
  }
}
