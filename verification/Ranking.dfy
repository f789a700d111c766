/** Stable ranking of rows by decreasing score. */
module Ranking {
  import opened Options

  /** Row `a` is listed before row `b`: a higher score, or the same score and an earlier row. */
  predicate Before(a: nat, b: nat, scores: seq<real>) {
    a < |scores| && b < |scores| && (scores[a] > scores[b] || (scores[a] == scores[b] && a < b))
  }

  function InsertRow(row: nat, ranked: seq<nat>, scores: seq<real>): (r: seq<nat>)
    requires row < |scores| && forall i :: 0 <= i < |ranked| ==> ranked[i] < |scores|
    ensures |r| == |ranked| + 1 && forall i :: 0 <= i < |r| ==> r[i] < |scores|
    ensures forall x :: x in r <==> x == row || x in ranked
  {
    if ranked == [] || scores[row] >= scores[ranked[0]] then [row] + ranked
    else [ranked[0]] + InsertRow(row, ranked[1..], scores)
  }

  /** Python's stable `sorted(rows, key=lambda i: -scores[i])`. */
  function Rank(rows: seq<nat>, scores: seq<real>): (r: seq<nat>)
    requires forall i :: 0 <= i < |rows| ==> rows[i] < |scores|
    ensures |r| == |rows| && forall i :: 0 <= i < |r| ==> r[i] < |scores|
    ensures forall x :: x in r <==> x in rows
  {
    if rows == [] then [] else InsertRow(rows[0], Rank(rows[1..], scores), scores)
  }

  ghost predicate RankedBy(ranked: seq<nat>, scores: seq<real>) {
    forall i, j :: 0 <= i < j < |ranked| ==> Before(ranked[i], ranked[j], scores)
  }

  lemma {:induction false} InsertRowOrdered(row: nat, ranked: seq<nat>, scores: seq<real>)
    requires row < |scores| && forall i :: 0 <= i < |ranked| ==> row < ranked[i] < |scores|
    requires RankedBy(ranked, scores)
    ensures RankedBy(InsertRow(row, ranked, scores), scores)
  {
    if ranked != [] {
      if scores[row] >= scores[ranked[0]] {
        forall j | 0 <= j < |ranked| ensures Before(row, ranked[j], scores) {
          if j > 0 { assert Before(ranked[0], ranked[j], scores); }
        }
      } else {
        InsertRowOrdered(row, ranked[1..], scores);
        var r := InsertRow(row, ranked[1..], scores);
        forall j | 0 <= j < |r| ensures Before(ranked[0], r[j], scores) {
          assert r[j] in r;
          if r[j] in ranked[1..] {
            var k :| 0 <= k < |ranked[1..]| && ranked[1..][k] == r[j];
            assert Before(ranked[0], ranked[k + 1], scores);
          }
        }
      }
    }
  }

  lemma {:induction false} RankIsOrdered(rows: seq<nat>, scores: seq<real>)
    requires forall i :: 0 <= i < |rows| ==> rows[i] < |scores|
    requires forall i, j :: 0 <= i < j < |rows| ==> rows[i] < rows[j]
    ensures RankedBy(Rank(rows, scores), scores)
  {
    if rows != [] {
      RankIsOrdered(rows[1..], scores);
      var rest := Rank(rows[1..], scores);
      forall i | 0 <= i < |rest| ensures rows[0] < rest[i] {
        assert rest[i] in rest;
        assert rest[i] in rows[1..];
      }
      InsertRowOrdered(rows[0], rest, scores);
    }
  }

  /** `top` lists the best `k` of `matching`: as many as asked for and there are, each before all
      that come later and before all that are left out. */
  ghost predicate IsTop(top: seq<nat>, matching: set<nat>, scores: seq<real>, k: nat) {
    && |top| == (if k <= |matching| then k else |matching|)
    && RankedBy(top, scores)
    && (forall i :: 0 <= i < |top| ==> top[i] in matching)
    && (forall i, m :: 0 <= i < |top| && m in matching && m !in top ==> Before(top[i], m, scores))
  }

  lemma PrefixIsTop(rows: seq<nat>, scores: seq<real>, k: nat)
    requires forall i :: 0 <= i < |rows| ==> rows[i] < |scores|
    requires RankedBy(Rank(rows, scores), scores) && k <= |rows|
    ensures |Elements(rows)| == |rows|
    ensures IsTop(Rank(rows, scores)[..k], Elements(rows), scores, k)
  {
    var ranked := Rank(rows, scores);
    assert Elements(ranked) == Elements(rows);
    assert Distinct(ranked) by {
      forall i, j | 0 <= i < j < |ranked| ensures ranked[i] != ranked[j] {
        assert Before(ranked[i], ranked[j], scores);
      }
    }
    DistinctSize(ranked);
    var top := ranked[..k];
    forall i | 0 <= i < |top| ensures top[i] in Elements(rows) {
      assert top[i] == ranked[i] && ranked[i] in ranked;
    }
    forall i, m | 0 <= i < |top| && m in Elements(rows) && m !in top ensures Before(top[i], m, scores) {
      assert m in ranked;
      var j :| 0 <= j < |ranked| && ranked[j] == m;
      assert forall t :: 0 <= t < k ==> ranked[t] == top[t] && top[t] in top;
      assert Before(ranked[i], ranked[j], scores);
    }
  }

  lemma {:induction false} DistinctSize<T>(s: seq<T>)
    requires Distinct(s)
    ensures |Elements(s)| == |s|
  {
    if s != [] {
      DistinctSize(s[1..]);
      assert s[0] !in s[1..];
      assert Elements(s) == Elements(s[1..]) + {s[0]};
    } else {
      assert Elements(s) == {};
    }
  }

  /** The declarative top leaves no choice. */
  lemma TopIsUnique(a: seq<nat>, b: seq<nat>, matching: set<nat>, scores: seq<real>, k: nat)
    requires IsTop(a, matching, scores, k) && IsTop(b, matching, scores, k)
    ensures a == b
  {
    SameRows(a, b, matching, scores, k);
    SameRows(b, a, matching, scores, k);
    SameOrder(a, b, scores);
  }

  lemma SameRows(a: seq<nat>, b: seq<nat>, matching: set<nat>, scores: seq<real>, k: nat)
    requires IsTop(a, matching, scores, k) && IsTop(b, matching, scores, k)
    ensures forall x :: x in a ==> x in b
  {
    RankedDistinct(a, scores);
    RankedDistinct(b, scores);
    DistinctSize(a);
    DistinctSize(b);
    if y :| y in b && y !in a {
      forall x | x in a ensures x in b {
        Exchange(a, b, matching, scores, k, x, y);
      }
    } else {
      SubsetOfSameSize(Elements(b), Elements(a));
      assert forall x :: x in a <==> x in Elements(a);
    }
  }

  /** A row listed by one and left out by the other would come both before and after. */
  lemma Exchange(a: seq<nat>, b: seq<nat>, matching: set<nat>, scores: seq<real>, k: nat, x: nat, y: nat)
    requires IsTop(a, matching, scores, k) && IsTop(b, matching, scores, k)
    requires x in a && y in b && y !in a
    ensures x in b
  {}

  lemma SubsetOfSameSize<T>(a: set<T>, b: set<T>)
    requires a <= b && |a| == |b|
    ensures a == b
  {
    assert b == a + (b - a);
  }

  lemma RankedDistinct(a: seq<nat>, scores: seq<real>)
    requires RankedBy(a, scores)
    ensures Distinct(a)
  {
    forall i, j | 0 <= i < j < |a| ensures a[i] != a[j] {
      assert Before(a[i], a[j], scores);
    }
  }

  lemma HeadsAgree(a: seq<nat>, b: seq<nat>, scores: seq<real>)
    requires RankedBy(a, scores) && RankedBy(b, scores) && a != [] && b != []
    requires a[0] in b && b[0] in a
    ensures a[0] == b[0]
  {}

  lemma {:induction false} SameOrder(a: seq<nat>, b: seq<nat>, scores: seq<real>)
    requires RankedBy(a, scores) && RankedBy(b, scores) && |a| == |b|
    requires forall x :: x in a <==> x in b
    ensures a == b
  {
    if a != [] {
      HeadsAgree(a, b, scores);
      RankedDistinct(a, scores);
      RankedDistinct(b, scores);
      assert forall x :: x in a[1..] <==> x in a && x != a[0];
      assert forall x :: x in b[1..] <==> x in b && x != b[0];
      SameOrder(a[1..], b[1..], scores);
      assert a == [a[0]] + a[1..] && b == [b[0]] + b[1..];
    }
  }
}
