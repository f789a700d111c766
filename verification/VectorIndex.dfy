/** The local vector index: rows of vectors beside a manifest, updated in place or appended to. */
module VectorIndex {
  import opened Options
  import opened Geometry
  import opened Ranking

  datatype Item = Item(id: string, metadata: map<string, string>)

  datatype Record = Record(id: string, values: seq<real>, metadata: map<string, string>)

  /** A row of the index together with its manifest entry. */
  datatype Slot = Slot(item: Item, values: seq<real>)

  function SlotOf(r: Record): Slot {
    Slot(Item(r.id, r.metadata), r.values)
  }

  function Slots(vectors: seq<seq<real>>, manifest: seq<Item>): seq<Slot>
    requires |vectors| == |manifest|
  {
    seq(|manifest|, i requires 0 <= i < |manifest| => Slot(manifest[i], vectors[i]))
  }

  lemma SlotsReplaced(vectors: seq<seq<real>>, manifest: seq<Item>, i: nat, values: seq<real>, item: Item)
    requires |vectors| == |manifest| && i < |vectors|
    ensures Slots(vectors[i := values], manifest[i := item]) == Slots(vectors, manifest)[i := Slot(item, values)]
  {}

  lemma SlotsJoined(vectors: seq<seq<real>>, manifest: seq<Item>, newVecs: seq<seq<real>>, newEntries: seq<Item>)
    requires |vectors| == |manifest| && |newVecs| == |newEntries|
    ensures Slots(vectors + newVecs, manifest + newEntries) == Slots(vectors, manifest) + Slots(newVecs, newEntries)
    ensures newVecs == [] ==> Slots(newVecs, newEntries) == []
  {}

  lemma SlotsExtended(vectors: seq<seq<real>>, manifest: seq<Item>, values: seq<real>, item: Item)
    requires |vectors| == |manifest|
    ensures Slots(vectors + [values], manifest + [item]) == Slots(vectors, manifest) + [Slot(item, values)]
  {}

  // ----- What an upsert does to the rows -----

  /** Where each id is found before the batch; of equal ids, the last. */
  function Positions(slots: seq<Slot>): (m: map<string, nat>)
    ensures forall id :: id in m ==> m[id] < |slots| && slots[m[id]].item.id == id
    ensures forall i :: 0 <= i < |slots| ==> slots[i].item.id in m
  {
    if slots == [] then map[]
    else Positions(slots[..|slots| - 1])[slots[|slots| - 1].item.id := |slots| - 1]
  }

  function Overwritten(slots: seq<Slot>, at: map<string, nat>, records: seq<Record>): (r: seq<Slot>)
    ensures |r| == |slots|
  {
    if records == [] then slots
    else
      var last := records[|records| - 1];
      var before := Overwritten(slots, at, records[..|records| - 1]);
      if last.id in at && at[last.id] < |before| then before[at[last.id] := SlotOf(last)] else before
  }

  function Appended(at: map<string, nat>, records: seq<Record>): seq<Slot> {
    if records == [] then []
    else
      var last := records[|records| - 1];
      Appended(at, records[..|records| - 1]) + if last.id in at then [] else [SlotOf(last)]
  }

  lemma OneMoreRecord(slots: seq<Slot>, at: map<string, nat>, records: seq<Record>, k: nat)
    requires k < |records|
    ensures Overwritten(slots, at, records[..k + 1]) ==
            var before := Overwritten(slots, at, records[..k]);
            if records[k].id in at && at[records[k].id] < |before| then before[at[records[k].id] := SlotOf(records[k])]
            else before
    ensures Appended(at, records[..k + 1]) ==
            Appended(at, records[..k]) + if records[k].id in at then [] else [SlotOf(records[k])]
  {
    assert records[..k + 1][..k] == records[..k];
  }

  function Upserted(slots: seq<Slot>, records: seq<Record>): seq<Slot> {
    Overwritten(slots, Positions(slots), records) + Appended(Positions(slots), records)
  }

  // ----- The map that the rows stand for -----

  function Contents(slots: seq<Slot>): map<string, Slot> {
    if slots == [] then map[]
    else Contents(slots[..|slots| - 1])[slots[|slots| - 1].item.id := slots[|slots| - 1]]
  }

  function Overridden(m: map<string, Slot>, records: seq<Record>): map<string, Slot> {
    if records == [] then m
    else Overridden(m, records[..|records| - 1])[records[|records| - 1].id := SlotOf(records[|records| - 1])]
  }

  function Ids(slots: seq<Slot>): seq<string> {
    seq(|slots|, i requires 0 <= i < |slots| => slots[i].item.id)
  }

  predicate UniqueIds(slots: seq<Slot>) {
    Distinct(Ids(slots))
  }

  /** The ids of the records that find no row, in the order of the batch. */
  function NewIds(at: map<string, nat>, records: seq<Record>): seq<string> {
    if records == [] then []
    else
      var id := records[|records| - 1].id;
      NewIds(at, records[..|records| - 1]) + if id in at then [] else [id]
  }

  lemma {:induction false} NewIdsAreNew(at: map<string, nat>, records: seq<Record>)
    ensures forall id :: id in NewIds(at, records) ==> id !in at
  {
    if records != [] { NewIdsAreNew(at, records[..|records| - 1]); }
  }

  lemma {:induction false} OverwrittenIds(slots: seq<Slot>, records: seq<Record>)
    ensures Ids(Overwritten(slots, Positions(slots), records)) == Ids(slots)
  {
    if records != [] {
      var n := |records| - 1;
      var before := Overwritten(slots, Positions(slots), records[..n]);
      OverwrittenIds(slots, records[..n]);
      forall i | 0 <= i < |slots| ensures Overwritten(slots, Positions(slots), records)[i].item.id == slots[i].item.id {
        assert Ids(before)[i] == Ids(slots)[i];
      }
    }
  }

  lemma {:induction false} AppendedIds(at: map<string, nat>, records: seq<Record>)
    ensures Ids(Appended(at, records)) == NewIds(at, records)
  {
    if records != [] { AppendedIds(at, records[..|records| - 1]); }
  }

  /** Existing rows keep their positions, and the new ids follow. */
  lemma UpsertedIds(slots: seq<Slot>, records: seq<Record>)
    ensures Ids(Upserted(slots, records)) == Ids(slots) + NewIds(Positions(slots), records)
  {
    OverwrittenIds(slots, records);
    AppendedIds(Positions(slots), records);
    IdsJoined(Overwritten(slots, Positions(slots), records), Appended(Positions(slots), records));
  }

  lemma IdsJoined(a: seq<Slot>, b: seq<Slot>)
    ensures Ids(a + b) == Ids(a) + Ids(b)
  {}

  lemma DistinctConcat<T>(a: seq<T>, b: seq<T>)
    requires Distinct(a) && forall x :: x in b ==> x !in a
    ensures Distinct(a + b) <==> Distinct(b)
  {
    var c := a + b;
    if Distinct(c) {
      forall i, j | 0 <= i < j < |b| ensures b[i] != b[j] {
        assert b[i] == c[|a| + i] && b[j] == c[|a| + j];
      }
    }
    if Distinct(b) {
      forall i, j | 0 <= i < j < |c| ensures c[i] != c[j] {
        if i < |a| <= j { assert c[j] == b[j - |a|] && c[i] in a; }
      }
    }
  }

  /** Ids stay unique exactly when no two records of the batch bring the same new id: a repeated
      new id is appended twice, because the lookup table is made once before the batch. */
  lemma UpsertKeepsUnique(slots: seq<Slot>, records: seq<Record>)
    requires UniqueIds(slots)
    ensures UniqueIds(Upserted(slots, records)) <==> Distinct(NewIds(Positions(slots), records))
  {
    UpsertedIds(slots, records);
    NewIdsAreNew(Positions(slots), records);
    assert forall id :: id in Ids(slots) ==> id in Positions(slots);
    DistinctConcat(Ids(slots), NewIds(Positions(slots), records));
  }

  ghost predicate HasId(slots: seq<Slot>, id: string) {
    exists i :: 0 <= i < |slots| && slots[i].item.id == id
  }

  lemma DistinctIds(slots: seq<Slot>)
    ensures UniqueIds(slots) <==> forall i, j :: 0 <= i < j < |slots| ==> slots[i].item.id != slots[j].item.id
  {
    assert forall i :: 0 <= i < |slots| ==> Ids(slots)[i] == slots[i].item.id;
  }

  lemma UniqueInPrefix(slots: seq<Slot>)
    requires UniqueIds(slots) && slots != []
    ensures UniqueIds(slots[..|slots| - 1])
  {
    assert Ids(slots[..|slots| - 1]) == Ids(slots)[..|slots| - 1];
  }

  lemma {:induction false} ContentsHolds(slots: seq<Slot>)
    requires UniqueIds(slots)
    ensures forall i :: 0 <= i < |slots| ==>
              slots[i].item.id in Contents(slots) && Contents(slots)[slots[i].item.id] == slots[i]
    ensures forall id :: id in Contents(slots) ==> HasId(slots, id)
  {
    if slots != [] {
      var n := |slots| - 1;
      DistinctIds(slots);
      UniqueInPrefix(slots);
      ContentsHolds(slots[..n]);
      forall i | 0 <= i < |slots|
        ensures slots[i].item.id in Contents(slots) && Contents(slots)[slots[i].item.id] == slots[i]
      {
        if i < n { assert slots[..n][i] == slots[i]; }
      }
      forall id | id in Contents(slots) ensures HasId(slots, id) {
        if id == slots[n].item.id {
        } else {
          assert HasId(slots[..n], id);
          var i :| 0 <= i < n && slots[..n][i].item.id == id;
          assert slots[i].item.id == id;
        }
      }
    }
  }

  lemma {:induction false} ContentsReplaced(slots: seq<Slot>, i: nat, slot: Slot)
    requires UniqueIds(slots) && i < |slots| && slot.item.id == slots[i].item.id
    ensures Contents(slots[i := slot]) == Contents(slots)[slot.item.id := slot]
  {
    var n := |slots| - 1;
    if i < n {
      assert slots[i := slot][..n] == slots[..n][i := slot];
      assert Ids(slots)[i] != Ids(slots)[n];
      UniqueInPrefix(slots);
      ContentsReplaced(slots[..n], i, slot);
    } else {
      assert slots[i := slot][..n] == slots[..n];
    }
  }

  lemma NewIdsInPrefix(at: map<string, nat>, records: seq<Record>)
    requires records != [] && Distinct(NewIds(at, records))
    ensures Distinct(NewIds(at, records[..|records| - 1]))
  {
    var shorter := NewIds(at, records[..|records| - 1]);
    assert shorter == NewIds(at, records)[..|shorter|];
  }

  /** An upsert refines overriding the represented map by the batch, record by record, unless the
      batch repeats a new id. */
  lemma {:induction false} UpsertRefinesMap(slots: seq<Slot>, records: seq<Record>)
    requires UniqueIds(slots) && Distinct(NewIds(Positions(slots), records))
    ensures Contents(Upserted(slots, records)) == Overridden(Contents(slots), records)
  {
    if records == [] {
      assert Upserted(slots, records) == slots;
    } else {
      NewIdsInPrefix(Positions(slots), records);
      UpsertRefinesMap(slots, records[..|records| - 1]);
      UpsertKeepsUnique(slots, records[..|records| - 1]);
      LastRecord(slots, records);
    }
  }

  /** The last record of a batch overrides its own id and nothing else. */
  lemma LastRecord(slots: seq<Slot>, records: seq<Record>)
    requires records != [] && UniqueIds(Upserted(slots, records[..|records| - 1]))
    ensures var last := records[|records| - 1];
            Contents(Upserted(slots, records)) ==
            Contents(Upserted(slots, records[..|records| - 1]))[last.id := SlotOf(last)]
  {
    var at := Positions(slots);
    var n := |records| - 1;
    var last := records[n];
    var before, after := Upserted(slots, records[..n]), Upserted(slots, records);
    UpsertLast(slots, records);
    if last.id in at {
      ContentsReplaced(before, at[last.id], SlotOf(last));
    } else {
      assert after[..|before|] == before;
    }
  }

  lemma UpsertLast(slots: seq<Slot>, records: seq<Record>)
    requires records != []
    ensures var at := Positions(slots);
            var last := records[|records| - 1];
            var before := Upserted(slots, records[..|records| - 1]);
            if last.id in at then
              at[last.id] < |before| && before[at[last.id]].item.id == last.id &&
              Upserted(slots, records) == before[at[last.id] := SlotOf(last)]
            else Upserted(slots, records) == before + [SlotOf(last)]
  {
    var at := Positions(slots);
    var n := |records| - 1;
    var last := records[n];
    var kept, added := Overwritten(slots, at, records[..n]), Appended(at, records[..n]);
    if last.id in at {
      OverwrittenIds(slots, records[..n]);
      assert Ids(kept)[at[last.id]] == Ids(slots)[at[last.id]];
      ReplacedInFront(kept, added, at[last.id], SlotOf(last));
    } else {
      AddedAtEnd(kept, added, SlotOf(last));
    }
  }

  lemma ReplacedInFront<T>(a: seq<T>, b: seq<T>, i: nat, x: T)
    requires i < |a|
    ensures (a + b)[i := x] == a[i := x] + b && (a + b)[i] == a[i]
  {}

  lemma AddedAtEnd<T>(a: seq<T>, b: seq<T>, x: T)
    ensures a + (b + [x]) == (a + b) + [x]
  {}

  lemma BringsMore(records: seq<Record>, id: string)
    requires records != []
    ensures Brings(records[..|records| - 1], id) ==> Brings(records, id)
  {
    if Brings(records[..|records| - 1], id) {
      var i :| 0 <= i < |records| - 1 && records[..|records| - 1][i].id == id;
      assert records[i].id == id;
    }
  }

  /** Rows whose id the batch does not bring stay as they are, where they are. */
  lemma {:induction false} OthersStay(slots: seq<Slot>, records: seq<Record>, row: nat)
    requires row < |slots| && !Brings(records, slots[row].item.id)
    ensures row < |Upserted(slots, records)| && Upserted(slots, records)[row] == slots[row]
  {
    if records == [] {
      assert Upserted(slots, records) == slots;
    } else {
      BringsMore(records, slots[row].item.id);
      OthersStay(slots, records[..|records| - 1], row);
      UpsertLast(slots, records);
    }
  }

  /** A row with the id, values and metadata of a record: an old one if the id was there. */
  ghost predicate HoldsRecord(slots: seq<Slot>, prior: seq<Slot>, r: Record) {
    exists row :: 0 <= row < |slots| && slots[row] == Slot(Item(r.id, r.metadata), r.values) &&
                  (row < |prior| <==> HasId(prior, r.id))
  }

  lemma LastIsHeld(slots: seq<Slot>, records: seq<Record>)
    requires records != []
    ensures HoldsRecord(Upserted(slots, records), slots, records[|records| - 1])
  {
    var at := Positions(slots);
    var last := records[|records| - 1];
    var before, after := Upserted(slots, records[..|records| - 1]), Upserted(slots, records);
    UpsertLast(slots, records);
    UpsertedIds(slots, records[..|records| - 1]);
    assert |before| == |Ids(before)| >= |slots|;
    assert HasId(slots, last.id) <==> last.id in at;
    var row := if last.id in at then at[last.id] else |before|;
    assert after[row] == Slot(Item(last.id, last.metadata), last.values);
  }

  lemma StillHeld(slots: seq<Slot>, records: seq<Record>, r: Record)
    requires records != [] && records[|records| - 1].id != r.id
    requires HoldsRecord(Upserted(slots, records[..|records| - 1]), slots, r)
    ensures HoldsRecord(Upserted(slots, records), slots, r)
  {
    var before, after := Upserted(slots, records[..|records| - 1]), Upserted(slots, records);
    var row :| 0 <= row < |before| && before[row] == Slot(Item(r.id, r.metadata), r.values) &&
               (row < |slots| <==> HasId(slots, r.id));
    UpsertLast(slots, records);
    assert after[row] == before[row];
  }

  /** Every record of a batch of different ids is found in the index as it was brought. */
  lemma {:induction false} EachIsHeld(slots: seq<Slot>, records: seq<Record>, i: nat)
    requires i < |records| && forall j, k :: 0 <= j < k < |records| ==> records[j].id != records[k].id
    ensures HoldsRecord(Upserted(slots, records), slots, records[i])
  {
    if i < |records| - 1 {
      EachIsHeld(slots, records[..|records| - 1], i);
      StillHeld(slots, records, records[i]);
    } else {
      LastIsHeld(slots, records);
    }
  }

  /** A batch of pairwise different ids, as the parser's de-duplication supplies, brings no new id
      twice. */
  lemma {:induction false} DistinctBatch(at: map<string, nat>, records: seq<Record>)
    requires forall i, j :: 0 <= i < j < |records| ==> records[i].id != records[j].id
    ensures Distinct(NewIds(at, records))
    ensures forall id :: id in NewIds(at, records) ==> Brings(records, id)
  {
    if records != [] {
      var n := |records| - 1;
      DistinctBatch(at, records[..n]);
      forall id | id in NewIds(at, records) ensures Brings(records, id) {
        if id in NewIds(at, records[..n]) {
          assert Brings(records[..n], id);
          var i :| 0 <= i < n && records[..n][i].id == id;
          assert records[i].id == id;
        } else {
          assert records[n].id == id;
        }
      }
      forall i | 0 <= i < n ensures records[..n][i].id != records[n].id {
        assert records[..n][i] == records[i];
      }
      assert !Brings(records[..n], records[n].id);
    }
  }

  ghost predicate Brings(records: seq<Record>, id: string) {
    exists i :: 0 <= i < |records| && records[i].id == id
  }

  // ----- The files and the index -----

  datatype Saved = Saved(vectors: seq<seq<real>>, manifest: seq<Item>)

  /** The directory of the index: what its two files hold, once both exist. */
  class Directory {
    var saved: Option<Saved>

    constructor ()
      ensures saved == None
    {
      saved := None;
    }
  }

  datatype Hit = Hit(id: string, score: real, metadata: map<string, string>)

  predicate Matches(item: Item, filter: map<string, string>) {
    forall k :: k in filter ==> k in item.metadata && item.metadata[k] == filter[k]
  }

  function Scores(slots: seq<Slot>, q: seq<real>): seq<real>
    requires forall i :: 0 <= i < |slots| ==> |slots[i].values| == |q|
  {
    seq(|slots|, i requires 0 <= i < |slots| => Dot(slots[i].values, q))
  }

  function Candidates(slots: seq<Slot>, filter: map<string, string>, n: nat): (c: seq<nat>)
    requires n <= |slots|
    ensures forall i :: 0 <= i < |c| ==> c[i] < n
    ensures forall i, j :: 0 <= i < j < |c| ==> c[i] < c[j]
    ensures forall k: nat :: k in c <==> k < n && Matches(slots[k].item, filter)
  {
    if n == 0 then []
    else if Matches(slots[n - 1].item, filter) then Candidates(slots, filter, n - 1) + [n - 1]
    else Candidates(slots, filter, n - 1)
  }

  function Matching(slots: seq<Slot>, filter: map<string, string>): set<nat> {
    set i: nat | i < |slots| && Matches(slots[i].item, filter)
  }

  /** The rows that a query ranks, best first. */
  function RankedRows(slots: seq<Slot>, q: seq<real>, filter: map<string, string>): seq<nat>
    requires forall i :: 0 <= i < |slots| ==> |slots[i].values| == |q|
  {
    Rank(Candidates(slots, filter, |slots|), Scores(slots, q))
  }

  /** What a Python slice `[:k]` keeps of `n` elements. */
  function SliceEnd(k: int, n: nat): nat {
    if k >= 0 then (if k <= n then k else n) else if n + k >= 0 then n + k else 0
  }

  function HitsOf(slots: seq<Slot>, q: seq<real>, rows: seq<nat>): seq<Hit>
    requires forall i :: 0 <= i < |slots| ==> |slots[i].values| == |q|
    requires forall i :: 0 <= i < |rows| ==> rows[i] < |slots|
  {
    seq(|rows|, i requires 0 <= i < |rows| =>
      Hit(slots[rows[i]].item.id, Dot(slots[rows[i]].values, q), slots[rows[i]].item.metadata))
  }

  /** The first rows of the ranking are the declarative top of the matching rows. */
  lemma RankedIsTop(slots: seq<Slot>, q: seq<real>, filter: map<string, string>, k: nat)
    requires forall i :: 0 <= i < |slots| ==> |slots[i].values| == |q|
    requires k <= |RankedRows(slots, q, filter)|
    ensures |RankedRows(slots, q, filter)| == |Matching(slots, filter)|
    ensures IsTop(RankedRows(slots, q, filter)[..k], Matching(slots, filter), Scores(slots, q), k)
  {
    var c := Candidates(slots, filter, |slots|);
    assert Elements(c) == Matching(slots, filter);
    RankIsOrdered(c, Scores(slots, q));
    PrefixIsTop(c, Scores(slots, q), k);
  }

  /** The rows that answer a query: the best of the matching ones, best first, ties in row order. */
  ghost predicate AreTopRows(slots: seq<Slot>, q: seq<real>, filter: map<string, string>, topK: int, rows: seq<nat>)
    requires forall i :: 0 <= i < |slots| ==> |slots[i].values| == |q|
  {
    && (forall i :: 0 <= i < |rows| ==> rows[i] < |slots|)
    && IsTop(rows, Matching(slots, filter), Scores(slots, q), SliceEnd(topK, |Matching(slots, filter)|))
  }

  // ----- What a caller gets and keeps, row by row -----

  /** The rows whose metadata has every entry of the filter. */
  ghost function PassingRows(manifest: seq<Item>, filter: map<string, string>): set<nat> {
    set m: nat | m < |manifest| && filter.Items <= manifest[m].metadata.Items
  }

  ghost predicate IsHitOf(hit: Hit, vectors: seq<seq<real>>, manifest: seq<Item>, q: seq<real>, row: nat) {
    && row < |manifest| == |vectors| && |vectors[row]| == |q|
    && hit.id == manifest[row].id && hit.metadata == manifest[row].metadata && hit.score == Dot(vectors[row], q)
  }

  /** `hits` shows `rows`, different passing ones, by decreasing score and ties in row order, and no
      passing row left out belongs before any of them. */
  ghost predicate ShowsBest(hits: seq<Hit>, vectors: seq<seq<real>>, manifest: seq<Item>, q: seq<real>,
                            filter: map<string, string>, rows: seq<nat>)
    requires |vectors| == |manifest| && forall i :: 0 <= i < |vectors| ==> |vectors[i]| == |q|
  {
    && |rows| == |hits|
    && (forall i :: 0 <= i < |rows| ==>
          rows[i] in PassingRows(manifest, filter) && IsHitOf(hits[i], vectors, manifest, q, rows[i]))
    && (forall i, j :: 0 <= i < j < |rows| ==>
          hits[i].score > hits[j].score || (hits[i].score == hits[j].score && rows[i] < rows[j]))
    && (forall i, m :: 0 <= i < |rows| && m in PassingRows(manifest, filter) && m !in rows ==>
          hits[i].score > Dot(vectors[m], q) || (hits[i].score == Dot(vectors[m], q) && rows[i] < m))
  }

  lemma MatchingIsPassing(vectors: seq<seq<real>>, manifest: seq<Item>, filter: map<string, string>)
    requires |vectors| == |manifest|
    ensures Matching(Slots(vectors, manifest), filter) == PassingRows(manifest, filter)
  {
    forall m: nat | m < |manifest|
      ensures Matches(Slots(vectors, manifest)[m].item, filter) <==> filter.Items <= manifest[m].metadata.Items
    {
      ItemsMatch(manifest[m], filter);
    }
  }

  lemma ItemsMatch(item: Item, filter: map<string, string>)
    ensures Matches(item, filter) <==> filter.Items <= item.metadata.Items
  {
    if filter.Items <= item.metadata.Items {
      forall k | k in filter ensures k in item.metadata && item.metadata[k] == filter[k] {
        assert (k, filter[k]) in filter.Items;
      }
    }
  }

  lemma TopSize(vectors: seq<seq<real>>, manifest: seq<Item>, q: seq<real>, filter: map<string, string>, topK: int,
                rows: seq<nat>)
    requires |vectors| == |manifest| && forall i :: 0 <= i < |vectors| ==> |vectors[i]| == |q|
    requires AreTopRows(Slots(vectors, manifest), q, filter, topK, rows)
    ensures var n := |PassingRows(manifest, filter)|;
            |rows| == if topK >= 0 then (if topK <= n then topK else n) else if n + topK >= 0 then n + topK else 0
  {
    MatchingIsPassing(vectors, manifest, filter);
  }

  lemma TopShowsBest(vectors: seq<seq<real>>, manifest: seq<Item>, q: seq<real>, filter: map<string, string>, topK: int,
                     rows: seq<nat>)
    requires |vectors| == |manifest| && forall i :: 0 <= i < |vectors| ==> |vectors[i]| == |q|
    requires AreTopRows(Slots(vectors, manifest), q, filter, topK, rows)
    ensures ShowsBest(HitsOf(Slots(vectors, manifest), q, rows), vectors, manifest, q, filter, rows)
  {
    MatchingIsPassing(vectors, manifest, filter);
    var hits, scores := HitsOf(Slots(vectors, manifest), q, rows), Scores(Slots(vectors, manifest), q);
    assert forall i :: 0 <= i < |rows| ==> hits[i].score == scores[rows[i]];
    forall i, j | 0 <= i < j < |rows|
      ensures hits[i].score > hits[j].score || (hits[i].score == hits[j].score && rows[i] < rows[j])
    {
      assert Before(rows[i], rows[j], scores);
    }
    forall i, m | 0 <= i < |rows| && m in PassingRows(manifest, filter) && m !in rows
      ensures hits[i].score > Dot(vectors[m], q) || (hits[i].score == Dot(vectors[m], q) && rows[i] < m)
    {
      assert scores[m] == Dot(vectors[m], q);
      assert Before(rows[i], m, scores);
    }
  }

  predicate OfDimension(vectors: seq<seq<real>>, dimension: nat) {
    forall i :: 0 <= i < |vectors| ==> |vectors[i]| == dimension
  }

  lemma KnownRecord(slots: seq<Slot>, at: map<string, nat>, records: seq<Record>, k: nat,
                    vecs: seq<seq<real>>, entries: seq<Item>)
    requires k < |records| && records[k].id in at && at[records[k].id] < |slots| == |vecs| == |entries|
    requires Slots(vecs, entries) == Overwritten(slots, at, records[..k])
    ensures var r := records[k];
            Slots(vecs[at[r.id] := r.values], entries[at[r.id] := Item(r.id, r.metadata)]) ==
            Overwritten(slots, at, records[..k + 1])
    ensures Appended(at, records[..k + 1]) == Appended(at, records[..k])
  {
    OneMoreRecord(slots, at, records, k);
    SlotsReplaced(vecs, entries, at[records[k].id], records[k].values, Item(records[k].id, records[k].metadata));
  }

  lemma NewRecord(slots: seq<Slot>, at: map<string, nat>, records: seq<Record>, k: nat,
                  newVecs: seq<seq<real>>, newEntries: seq<Item>)
    requires k < |records| && records[k].id !in at && |newVecs| == |newEntries|
    requires Slots(newVecs, newEntries) == Appended(at, records[..k])
    ensures var r := records[k];
            Slots(newVecs + [r.values], newEntries + [Item(r.id, r.metadata)]) == Appended(at, records[..k + 1])
    ensures Overwritten(slots, at, records[..k + 1]) == Overwritten(slots, at, records[..k])
  {
    OneMoreRecord(slots, at, records, k);
    SlotsExtended(newVecs, newEntries, records[k].values, Item(records[k].id, records[k].metadata));
  }

  /** The loop of an upsert, on the arrays that it changes. */
  method UpsertedRows(vectors: seq<seq<real>>, manifest: seq<Item>, dimension: nat, records: seq<Record>)
    returns (vecs: seq<seq<real>>, entries: seq<Item>)
    requires |vectors| == |manifest| && OfDimension(vectors, dimension)
    requires forall i :: 0 <= i < |records| ==> |records[i].values| == dimension
    ensures |vecs| == |entries| && OfDimension(vecs, dimension)
    ensures Slots(vecs, entries) == Upserted(Slots(vectors, manifest), records)
  {
    ghost var slots := Slots(vectors, manifest);
    var existing := Positions(Slots(vectors, manifest));
    var newVecs: seq<seq<real>> := [];
    var newEntries: seq<Item> := [];
    vecs, entries := vectors, manifest;
    var k := 0;
    while k < |records|
      invariant 0 <= k <= |records| && |vecs| == |entries| == |slots| && |newVecs| == |newEntries|
      invariant OfDimension(vecs, dimension) && OfDimension(newVecs, dimension)
      invariant Slots(vecs, entries) == Overwritten(slots, existing, records[..k])
      invariant Slots(newVecs, newEntries) == Appended(existing, records[..k])
    {
      var r := records[k];
      if r.id in existing {
        KnownRecord(slots, existing, records, k, vecs, entries);
        vecs := vecs[existing[r.id] := r.values];
        entries := entries[existing[r.id] := Item(r.id, r.metadata)];
      } else {
        NewRecord(slots, existing, records, k, newVecs, newEntries);
        newVecs := newVecs + [r.values];
        newEntries := newEntries + [Item(r.id, r.metadata)];
      }
      k := k + 1;
    }
    assert records[..k] == records;
    SlotsJoined(vecs, entries, newVecs, newEntries);
    if newVecs != [] {
      vecs := vecs + newVecs;
      entries := entries + newEntries;
    }
  }

  lemma UpsertedRowsAre(vectors: seq<seq<real>>, manifest: seq<Item>, records: seq<Record>, vecs: seq<seq<real>>,
                        entries: seq<Item>)
    requires |vectors| == |manifest| && |vecs| == |entries|
    requires Slots(vecs, entries) == Upserted(Slots(vectors, manifest), records)
    ensures forall row :: 0 <= row < |manifest| && !Brings(records, manifest[row].id) ==>
              row < |entries| && entries[row] == manifest[row] && vecs[row] == vectors[row]
    ensures (forall i, j :: 0 <= i < j < |records| ==> records[i].id != records[j].id) ==>
              forall i :: 0 <= i < |records| ==>
                HoldsRecord(Slots(vecs, entries), Slots(vectors, manifest), records[i])
  {
    var slots, after := Slots(vectors, manifest), Slots(vecs, entries);
    forall row | 0 <= row < |manifest| && !Brings(records, manifest[row].id)
      ensures row < |entries| && entries[row] == manifest[row] && vecs[row] == vectors[row]
    {
      OthersStay(slots, records, row);
      assert after[row] == slots[row] == Slot(manifest[row], vectors[row]);
    }
    if forall i, j :: 0 <= i < j < |records| ==> records[i].id != records[j].id {
      forall i | 0 <= i < |records| ensures HoldsRecord(after, slots, records[i]) {
        EachIsHeld(slots, records, i);
      }
    }
  }

  class LocalNumpyIndex {
    const dimension: nat
    const directory: Directory
    var vectors: seq<seq<real>>
    var manifest: seq<Item>

    ghost predicate Valid()
      reads this
    {
      && |vectors| == |manifest|
      && forall i :: 0 <= i < |vectors| ==> |vectors[i]| == dimension
    }

    /** Opens the index: what was last saved, or nothing. */
    constructor (directory: Directory, dimension: nat)
      requires directory.saved.Some? ==>
                 |directory.saved.value.vectors| == |directory.saved.value.manifest| &&
                 OfDimension(directory.saved.value.vectors, dimension)
      ensures Valid() && this.directory == directory && this.dimension == dimension
      ensures directory.saved.Some? ==> Saved(vectors, manifest) == directory.saved.value
      ensures directory.saved.None? ==> vectors == [] && manifest == []
    {
      this.directory, this.dimension := directory, dimension;
      if directory.saved.Some? {
        vectors, manifest := directory.saved.value.vectors, directory.saved.value.manifest;
      } else {
        vectors, manifest := [], [];
      }
    }

    /** Overwrites the rows of known ids, appends the rest, and saves both files. */
    method Upsert(records: seq<Record>)
      requires Valid() && forall i :: 0 <= i < |records| ==> |records[i].values| == dimension
      modifies this, directory
      ensures Valid() && Slots(vectors, manifest) == Upserted(old(Slots(vectors, manifest)), records)
      ensures directory.saved == Some(Saved(vectors, manifest))
      ensures forall row :: 0 <= row < |old(manifest)| && !Brings(records, old(manifest)[row].id) ==>
                row < |manifest| && manifest[row] == old(manifest)[row] && vectors[row] == old(vectors)[row]
      ensures (forall i, j :: 0 <= i < j < |records| ==> records[i].id != records[j].id) ==>
                forall i :: 0 <= i < |records| ==>
                  HoldsRecord(Slots(vectors, manifest), old(Slots(vectors, manifest)), records[i])
    {
      var vecs, entries := UpsertedRows(vectors, manifest, dimension, records);
      UpsertedRowsAre(vectors, manifest, records, vecs, entries);
      vectors, manifest := vecs, entries;
      Persist();
    }

    method Persist()
      modifies directory
      ensures directory.saved == Some(Saved(vectors, manifest))
    {
      directory.saved := Some(Saved(vectors, manifest));
    }

    /** The best matching rows, best first, ties in row order. */
    method Query(q: seq<real>, topK: int, filter: map<string, string>) returns (hits: seq<Hit>)
      requires Valid() && (manifest != [] ==> |q| == dimension)
      ensures exists rows: seq<nat> :: ShowsBest(hits, vectors, manifest, q, filter, rows)
      ensures var n := |PassingRows(manifest, filter)|;
              |hits| == if topK >= 0 then (if topK <= n then topK else n) else if n + topK >= 0 then n + topK else 0
    {
      var slots := Slots(vectors, manifest);
      var candidates := Candidates(slots, filter, |manifest|);
      var ranked := Rank(candidates, Scores(slots, q));
      var top := ranked[..SliceEnd(topK, |ranked|)];
      hits := HitsOf(slots, q, top);
      RankedIsTop(slots, q, filter, |top|);
      TopShowsBest(vectors, manifest, q, filter, topK, top);
      TopSize(vectors, manifest, q, filter, topK, top);
    }
  }

  // ----- Ranking is by distance -----

  ghost predicate AllUnit(slots: seq<Slot>, q: seq<real>) {
    Unit(q) && forall i :: 0 <= i < |slots| ==> |slots[i].values| == |q| && Unit(slots[i].values)
  }

  function DistanceOf(slots: seq<Slot>, q: seq<real>, row: nat): real
    requires row < |slots| && |slots[row].values| == |q|
  {
    DistanceSquared(slots[row].values, q)
  }

  /** Among unit vectors the top rows are the nearest, nearest first. */
  lemma TopIsNearest(slots: seq<Slot>, q: seq<real>, filter: map<string, string>, rows: seq<nat>, k: nat)
    requires AllUnit(slots, q)
    requires IsTop(rows, Matching(slots, filter), Scores(slots, q), k)
    ensures forall i, j :: 0 <= i < j < |rows| ==> DistanceOf(slots, q, rows[i]) <= DistanceOf(slots, q, rows[j])
    ensures forall i, m :: 0 <= i < |rows| && m in Matching(slots, filter) && m !in rows ==>
              DistanceOf(slots, q, rows[i]) <= DistanceOf(slots, q, m)
  {
    forall i, j | 0 <= i < j < |rows| ensures DistanceOf(slots, q, rows[i]) <= DistanceOf(slots, q, rows[j]) {
      assert Before(rows[i], rows[j], Scores(slots, q));
      CloserIsHigher(q, slots[rows[i]].values, slots[rows[j]].values);
    }
    forall i, m | 0 <= i < |rows| && m in Matching(slots, filter) && m !in rows
      ensures DistanceOf(slots, q, rows[i]) <= DistanceOf(slots, q, m)
    {
      assert Before(rows[i], m, Scores(slots, q));
      CloserIsHigher(q, slots[rows[i]].values, slots[m].values);
    }
  }

  /** Asking for a stored vector without a filter puts a record with that very vector first, at
      score 1. */
  lemma StoredVectorFirst(slots: seq<Slot>, q: seq<real>, rows: seq<nat>, k: nat, stored: nat)
    requires AllUnit(slots, q) && stored < |slots| && slots[stored].values == q
    requires k >= 1 && IsTop(rows, Matching(slots, map[]), Scores(slots, q), k)
    ensures rows != [] && slots[rows[0]].values == q && Dot(slots[rows[0]].values, q) == 1.0
  {
    var matching := Matching(slots, map[]);
    assert stored in matching;
    assert |matching| >= 1;
    var scores := Scores(slots, q);
    assert rows[0] in matching;
    UnitDot(slots[rows[0]].values, q);
    if stored in rows {
      var i :| 0 <= i < |rows| && rows[i] == stored;
      assert i > 0 ==> Before(rows[0], rows[i], scores);
    } else {
      assert Before(rows[0], stored, scores);
    }
    assert scores[rows[0]] >= scores[stored];
  }
}
