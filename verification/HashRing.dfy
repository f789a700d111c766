/** The consistent hash ring that routes a task's key to a worker. */
module HashRing {
  import opened Options

  // ----- Labels of virtual nodes -----

  const DIGITS: string := "0123456789"

  function Decimal(i: nat): (s: string)
    ensures s != []
    ensures forall k :: 0 <= k < |s| ==> s[k] in DIGITS
  {
    if i < 10 then [DIGITS[i]] else Decimal(i / 10) + [DIGITS[i % 10]]
  }

  function Label(worker: string, i: nat): string {
    worker + "#" + Decimal(i)
  }

  lemma {:induction false} DecimalInjective(i: nat, j: nat)
    requires Decimal(i) == Decimal(j)
    ensures i == j
  {
    assert forall a, b :: 0 <= a < 10 && 0 <= b < 10 && DIGITS[a] == DIGITS[b] ==> a == b;
    assert i < 10 <==> |Decimal(i)| == 1;
    assert j < 10 <==> |Decimal(j)| == 1;
    if i >= 10 {
      var a, b := Decimal(i), Decimal(j);
      assert a[..|a| - 1] == Decimal(i / 10) && b[..|b| - 1] == Decimal(j / 10);
      assert a[|a| - 1] == DIGITS[i % 10] && b[|b| - 1] == DIGITS[j % 10];
      DecimalInjective(i / 10, j / 10);
    }
  }

  /** Two virtual nodes share a label only when they are the same virtual node:
      the index has no `#`, so the last `#` of a label ends the worker id. */
  lemma LabelInjective(v: string, i: nat, w: string, j: nat)
    requires Label(v, i) == Label(w, j)
    ensures v == w && i == j
  {
    var s := Label(v, i);
    assert s == Label(w, j);
    NoHashAfter(v, i);
    NoHashAfter(w, j);
    assert s[|v|] == '#' && s[|w|] == '#';
    assert |v| == |w|;
    assert s[..|v|] == v && s[..|w|] == w;
    assert s[|v| + 1..] == Decimal(i) && s[|w| + 1..] == Decimal(j);
    DecimalInjective(i, j);
  }

  lemma NoHashAfter(worker: string, i: nat)
    ensures forall k :: |worker| < k < |Label(worker, i)| ==> Label(worker, i)[k] != '#'
  {
    forall k | |worker| < k < |Label(worker, i)| ensures Label(worker, i)[k] != '#' {
      assert Label(worker, i)[k] == Decimal(i)[k - |worker| - 1];
    }
  }

  // ----- What a label is -----

  /** The number that a string of digits denotes in base ten. */
  function ValueOf(s: string): int {
    if s == [] then 0 else 10 * ValueOf(s[..|s| - 1]) + (s[|s| - 1] as int - '0' as int)
  }

  predicate IsNumeral(s: string, i: nat) {
    && s != [] && (forall k :: 0 <= k < |s| ==> '0' <= s[k] <= '9')
    && (s[0] == '0' ==> |s| == 1)
    && ValueOf(s) == i
  }

  /** The worker's id, `#`, and the index written in base ten without leading zeros. */
  predicate IsLabel(name: string, worker: string, i: nat) {
    worker + "#" <= name && IsNumeral(name[|worker| + 1..], i)
  }

  lemma {:induction false} DecimalIsNumeral(i: nat)
    ensures IsNumeral(Decimal(i), i) && (i > 0 ==> Decimal(i)[0] != '0')
  {
    DigitsAscend(i % 10);
    if i < 10 {
      assert Decimal(i)[..0] == [];
    } else {
      DecimalIsNumeral(i / 10);
      var s := Decimal(i);
      assert s[..|s| - 1] == Decimal(i / 10);
      assert s[0] == Decimal(i / 10)[0];
    }
  }

  lemma DigitsAscend(d: nat)
    requires d < 10
    ensures DIGITS[d] as int == '0' as int + d && '0' <= DIGITS[d] <= '9'
  {}

  lemma {:induction false} NumeralPositive(s: string)
    requires s != [] && (forall k :: 0 <= k < |s| ==> '0' <= s[k] <= '9') && s[0] != '0'
    ensures ValueOf(s) > 0
  {
    if |s| > 1 { NumeralPositive(s[..|s| - 1]); } else { assert s[..0] == []; }
  }

  lemma SplitTen(q: int, d: nat, i: int)
    requires i == 10 * q + d && d < 10
    ensures i / 10 == q && i % 10 == d
  {}

  lemma OneDigit(s: string, i: nat)
    requires IsNumeral(s, i) && |s| == 1
    ensures i < 10 && s[0] == DIGITS[i]
  {
    assert s[..|s| - 1] == [];
    assert ValueOf(s) == s[0] as int - '0' as int;
    assert '0' <= s[0] <= '9';
    DigitsAscend(i);
  }

  lemma ManyDigits(s: string, i: nat)
    requires IsNumeral(s, i) && |s| > 1
    ensures i >= 10 && IsNumeral(s[..|s| - 1], i / 10) && s[|s| - 1] == DIGITS[i % 10]
  {
    var front := s[..|s| - 1];
    var d := s[|s| - 1] as int - '0' as int;
    assert front[0] == s[0];
    NumeralPositive(front);
    SplitTen(ValueOf(front), d, i);
    DigitsAscend(d);
  }

  lemma {:induction false} NumeralIsDecimal(s: string, i: nat)
    requires IsNumeral(s, i)
    ensures s == Decimal(i)
  {
    if |s| == 1 {
      OneDigit(s, i);
    } else {
      ManyDigits(s, i);
      NumeralIsDecimal(s[..|s| - 1], i / 10);
      assert s == s[..|s| - 1] + [s[|s| - 1]];
    }
  }

  /** Each virtual node has exactly one label. */
  lemma LabelIs(name: string, worker: string, i: nat)
    ensures IsLabel(name, worker, i) <==> name == Label(worker, i)
  {
    DecimalIsNumeral(i);
    assert Label(worker, i) == worker + "#" + Decimal(i);
    assert Label(worker, i)[|worker| + 1..] == Decimal(i);
    if IsLabel(name, worker, i) {
      NumeralIsDecimal(name[|worker| + 1..], i);
      assert name == name[..|worker| + 1] + name[|worker| + 1..];
    }
  }

  /** A point where one of the worker's virtual nodes lies. */
  ghost predicate PointOf(hash: string -> int, virtualNodes: int, worker: string, h: int) {
    exists i: nat, name :: i < virtualNodes && IsLabel(name, worker, i) && hash(name) == h
  }

  // ----- What each operation does to the dictionary -----

  /** The points of the ring that belong to each worker. */
  type Layout = string -> set<int>

  function SpotsBelow(hash: string -> int, worker: string, n: int): set<int> {
    if n <= 0 then {} else SpotsBelow(hash, worker, n - 1) + {hash(Label(worker, n - 1))}
  }

  /** The layout that a digest function and a number of virtual nodes per worker give. */
  function LayoutOf(hash: string -> int, virtualNodes: int): Layout {
    worker => SpotsBelow(hash, worker, virtualNodes)
  }

  lemma {:induction false} SpotsAre(hash: string -> int, worker: string, n: int)
    ensures SpotsBelow(hash, worker, n) == set i | 0 <= i < n :: hash(Label(worker, i))
  {
    if n > 0 { SpotsAre(hash, worker, n - 1); }
  }

  lemma SpotsArePoints(hash: string -> int, virtualNodes: int, worker: string, h: int)
    ensures h in LayoutOf(hash, virtualNodes)(worker) <==> PointOf(hash, virtualNodes, worker, h)
  {
    SpotsAre(hash, worker, virtualNodes);
    if h in LayoutOf(hash, virtualNodes)(worker) {
      var i: nat :| i < virtualNodes && hash(Label(worker, i)) == h;
      LabelIs(Label(worker, i), worker, i);
    }
    if PointOf(hash, virtualNodes, worker, h) {
      var i: nat, name :| i < virtualNodes && IsLabel(name, worker, i) && hash(name) == h;
      LabelIs(name, worker, i);
    }
  }

  lemma AllSpotsArePoints(hash: string -> int, virtualNodes: int)
    ensures forall worker, h ::
              h in LayoutOf(hash, virtualNodes)(worker) <==> PointOf(hash, virtualNodes, worker, h)
  {
    forall worker, h ensures h in LayoutOf(hash, virtualNodes)(worker) <==> PointOf(hash, virtualNodes, worker, h) {
      SpotsArePoints(hash, virtualNodes, worker, h);
    }
  }

  /** `after` is `before` with all points of the worker set to it. */
  ghost predicate HasAdded(hash: string -> int, virtualNodes: int, before: map<int, string>, after: map<int, string>,
                           worker: string) {
    && (forall h :: h in after <==> h in before || PointOf(hash, virtualNodes, worker, h))
    && (forall h :: h in after ==>
          if PointOf(hash, virtualNodes, worker, h) then after[h] == worker else after[h] == before[h])
  }

  /** `after` is `before` without the points of the worker. */
  ghost predicate HasRemoved(hash: string -> int, virtualNodes: int, before: map<int, string>, after: map<int, string>,
                             worker: string) {
    && (forall h :: h in after <==> h in before && !PointOf(hash, virtualNodes, worker, h))
    && (forall h :: h in after ==> after[h] == before[h])
  }

  /** The worker is the last one listed that has a point there. */
  ghost predicate LastWithPoint(hash: string -> int, virtualNodes: int, workers: seq<string>, h: int, worker: string) {
    exists k :: 0 <= k < |workers| && workers[k] == worker && PointOf(hash, virtualNodes, worker, h) &&
      forall j :: k < j < |workers| ==> !PointOf(hash, virtualNodes, workers[j], h)
  }

  /** `ring` holds the points of the listed workers, the last one listed owning a shared point. */
  ghost predicate HasRebuilt(hash: string -> int, virtualNodes: int, workers: seq<string>, ring: map<int, string>) {
    && (forall w, h :: w in workers && PointOf(hash, virtualNodes, w, h) ==> h in ring)
    && (forall h :: h in ring ==> LastWithPoint(hash, virtualNodes, workers, h, ring[h]))
  }

  lemma {:induction false} RebuiltHas(hash: string -> int, virtualNodes: int, workers: seq<string>)
    ensures HasRebuilt(hash, virtualNodes, workers, Rebuilt(LayoutOf(hash, virtualNodes), workers))
  {
    if workers != [] {
      var n := |workers| - 1;
      RebuiltHas(hash, virtualNodes, workers[..n]);
      AllSpotsArePoints(hash, virtualNodes);
      var before := Rebuilt(LayoutOf(hash, virtualNodes), workers[..n]);
      var ring := Rebuilt(LayoutOf(hash, virtualNodes), workers);
      forall w, h | w in workers && PointOf(hash, virtualNodes, w, h) ensures h in ring {
        assert w == workers[n] || w in workers[..n];
      }
      forall h | h in ring ensures LastWithPoint(hash, virtualNodes, workers, h, ring[h]) {
        if !PointOf(hash, virtualNodes, workers[n], h) {
          LaterWithout(hash, virtualNodes, workers, h, ring[h]);
        } else {
          assert workers[n] == ring[h];
        }
      }
    }
  }

  lemma LaterWithout(hash: string -> int, virtualNodes: int, workers: seq<string>, h: int, worker: string)
    requires workers != [] && !PointOf(hash, virtualNodes, workers[|workers| - 1], h)
    requires LastWithPoint(hash, virtualNodes, workers[..|workers| - 1], h, worker)
    ensures LastWithPoint(hash, virtualNodes, workers, h, worker)
  {
    var rest := workers[..|workers| - 1];
    var k :| 0 <= k < |rest| && rest[k] == worker && PointOf(hash, virtualNodes, worker, h) &&
      forall j :: k < j < |rest| ==> !PointOf(hash, virtualNodes, rest[j], h);
    assert workers[k] == worker;
    forall j | k < j < |workers| ensures !PointOf(hash, virtualNodes, workers[j], h) {
      if j < |rest| { assert rest[j] == workers[j]; }
    }
  }

  /** The dictionary once each of `points` has been set to `worker`. */
  function Stamped(ring: map<int, string>, points: set<int>, worker: string): map<int, string> {
    ring + map h | h in points :: worker
  }

  lemma StampOne(ring: map<int, string>, points: set<int>, worker: string, h: int)
    ensures Stamped(ring, {}, worker) == ring
    ensures Stamped(ring, points + {h}, worker) == Stamped(ring, points, worker)[h := worker]
  {}

  lemma DropOne(ring: map<int, string>, points: set<int>, h: int)
    ensures ring - {} == ring
    ensures ring - (points + {h}) == (ring - points) - {h}
  {}

  function Added(layout: Layout, ring: map<int, string>, worker: string): map<int, string> {
    Stamped(ring, layout(worker), worker)
  }

  function Removed(layout: Layout, ring: map<int, string>, worker: string): map<int, string> {
    ring - layout(worker)
  }

  function Rebuilt(layout: Layout, workers: seq<string>): map<int, string> {
    if workers == [] then map[]
    else Added(layout, Rebuilt(layout, workers[..|workers| - 1]), workers[|workers| - 1])
  }

  // ----- The naive clockwise rule -----

  /** Walking clockwise from just past `h`, the point `a` is met no later than `b`. */
  predicate Earlier(h: int, a: int, b: int) {
    if a > h then b > h ==> a <= b else b <= h && a <= b
  }

  ghost predicate Follows(points: set<int>, h: int, p: int) {
    p in points && forall q :: q in points ==> Earlier(h, p, q)
  }

  /** The first point clockwise is the least one strictly above `h`, or the least of all when
      none is above. */
  lemma ClockwiseRule(points: set<int>, h: int, p: int)
    ensures Follows(points, h, p) <==>
            p in points &&
            (if exists q :: q in points && q > h
             then p > h && forall q :: q in points && q > h ==> p <= q
             else forall q :: q in points ==> p <= q)
  {
    if p in points && exists q :: q in points && q > h {
      var q :| q in points && q > h;
      assert Earlier(h, p, q) ==> p > h;
    }
  }

  lemma {:induction false} FollowsExists(points: set<int>, h: int) returns (p: int)
    requires points != {}
    ensures Follows(points, h, p)
    decreases |points|
  {
    var x := AnyOf(points);
    if points == {x} {
      p := x;
    } else {
      var rest := points - {x};
      assert points == rest + {x};
      var q := FollowsExists(rest, h);
      p := if Earlier(h, x, q) then x else q;
      assert forall r :: r in points ==> r == x || r in rest;
    }
  }

  /** Two rings that each contain the other's answer give the same answer. */
  lemma FollowsAgree(a: set<int>, b: set<int>, h: int, p: int, q: int)
    requires Follows(a, h, p) && Follows(b, h, q)
    requires p in b && q in a
    ensures p == q
  {
    assert Earlier(h, p, q) && Earlier(h, q, p);
  }

  ghost function Successor(points: set<int>, h: int): (p: int)
    requires points != {}
    ensures Follows(points, h, p)
  {
    assert exists p :: Follows(points, h, p) by {
      var p := FollowsExists(points, h);
    }
    var p :| Follows(points, h, p);
    p
  }

  /** The worker that the ring makes responsible for a key with hash `h`. */
  ghost function Owner(ring: map<int, string>, h: int): Option<string> {
    if |ring.Keys| == 0 then None else Some(ring[Successor(ring.Keys, h)])
  }

  lemma OwnerIs(ring: map<int, string>, h: int, p: int)
    requires Follows(ring.Keys, h, p)
    ensures Owner(ring, h) == Some(ring[p])
  {
    FollowsAgree(ring.Keys, ring.Keys, h, p, Successor(ring.Keys, h));
  }

  // ----- The ring itself -----

  predicate Ascending(s: seq<int>) {
    forall i, j :: 0 <= i < j < |s| ==> s[i] < s[j]
  }

  /** Python's `sorted` over the keys of a dictionary. */
  method SortedKeys(keys: set<int>) returns (s: seq<int>)
    ensures Ascending(s) && Elements(s) == keys
  {
    s := [];
    var rest := keys;
    while rest != {}
      invariant rest <= keys && Ascending(s) && Elements(s) == keys - rest
      decreases rest
    {
      var x := PickOne(rest);
      assert x !in s by { assert x !in Elements(s); }
      var i := BisectRight(s, x);
      ghost var was := s;
      s := s[..i] + [x] + s[i..];
      assert Elements(s) == Elements(was) + {x} by {
        forall y ensures y in s <==> y in was || y == x {
          assert was == was[..i] + was[i..];
        }
      }
      rest := rest - {x};
    }
  }

  /** Python's `bisect.bisect_right`. */
  method BisectRight(s: seq<int>, h: int) returns (i: nat)
    requires Ascending(s)
    ensures i <= |s|
    ensures forall j :: 0 <= j < i ==> s[j] <= h
    ensures forall j :: i <= j < |s| ==> s[j] > h
  {
    var lo, hi := 0, |s|;
    while lo < hi
      invariant 0 <= lo <= hi <= |s|
      invariant forall j :: 0 <= j < lo ==> s[j] <= h
      invariant forall j :: hi <= j < |s| ==> s[j] > h
    {
      var mid := (lo + hi) / 2;
      if h < s[mid] { hi := mid; } else { lo := mid + 1; }
    }
    i := lo;
  }

  class ConsistentHashRing {
    const hash: string -> int
    const virtualNodes: int
    var ring: map<int, string>
    var sortedHashes: seq<int>

    ghost predicate Valid()
      reads this
    {
      Ascending(sortedHashes) && Elements(sortedHashes) == ring.Keys
    }

    function Layout(): Layout {
      LayoutOf(hash, virtualNodes)
    }

    constructor (hash: string -> int, virtualNodes: int)
      ensures Valid() && ring == map[]
      ensures this.hash == hash && this.virtualNodes == virtualNodes
    {
      this.hash, this.virtualNodes := hash, virtualNodes;
      ring, sortedHashes := map[], [];
    }

    /** The inner loop that `AddWorker` and `ReplaceWorkers` have in common. */
    method PlaceSpots(worker: string)
      modifies this`ring
      ensures ring == Added(Layout(), old(ring), worker)
    {
      var i := 0;
      StampOne(ring, {}, worker, 0);
      while i < virtualNodes
        invariant 0 <= i && (i <= virtualNodes || i == 0)
        invariant ring == Stamped(old(ring), SpotsBelow(hash, worker, i), worker)
      {
        var h := hash(Label(worker, i));
        StampOne(old(ring), SpotsBelow(hash, worker, i), worker, h);
        ring := ring[h := worker];
        i := i + 1;
      }
      assert SpotsBelow(hash, worker, i) == Layout()(worker);
    }

    method AddWorker(worker: string)
      modifies this
      ensures Valid() && ring == Added(Layout(), old(ring), worker)
      ensures HasAdded(hash, virtualNodes, old(ring), ring, worker)
    {
      PlaceSpots(worker);
      AllSpotsArePoints(hash, virtualNodes);
      sortedHashes := SortedKeys(ring.Keys);
    }

    method RemoveWorker(worker: string)
      modifies this
      ensures Valid() && ring == Removed(Layout(), old(ring), worker)
      ensures HasRemoved(hash, virtualNodes, old(ring), ring, worker)
    {
      var i := 0;
      DropOne(ring, {}, 0);
      while i < virtualNodes
        invariant 0 <= i && (i <= virtualNodes || i == 0)
        invariant ring == old(ring) - SpotsBelow(hash, worker, i)
      {
        var h := hash(Label(worker, i));
        DropOne(old(ring), SpotsBelow(hash, worker, i), h);
        ring := ring - {h};
        i := i + 1;
      }
      assert SpotsBelow(hash, worker, i) == Layout()(worker);
      AllSpotsArePoints(hash, virtualNodes);
      sortedHashes := SortedKeys(ring.Keys);
    }

    method ReplaceWorkers(workers: seq<string>)
      modifies this
      ensures Valid() && ring == Rebuilt(Layout(), workers)
      ensures HasRebuilt(hash, virtualNodes, workers, ring)
    {
      ring := map[];
      var k := 0;
      while k < |workers|
        invariant 0 <= k <= |workers|
        invariant ring == Rebuilt(Layout(), workers[..k])
      {
        PlaceSpots(workers[k]);
        assert workers[..k + 1][..k] == workers[..k];
        k := k + 1;
      }
      assert workers[..k] == workers;
      RebuiltHas(hash, virtualNodes, workers);
      sortedHashes := SortedKeys(ring.Keys);
    }

    method GetWorker(key: string) returns (worker: Option<string>)
      requires Valid()
      ensures worker == Owner(ring, hash(key))
    {
      if sortedHashes == [] {
        assert ring.Keys == {};
        return None;
      }
      var h := hash(key);
      var i := BisectRight(sortedHashes, h);
      if i == |sortedHashes| { i := 0; }
      var p := sortedHashes[i];
      assert p in Elements(sortedHashes);
      assert Follows(ring.Keys, h, p) by {
        forall q | q in ring.Keys ensures Earlier(h, p, q) {
          assert q in Elements(sortedHashes);
          var j :| 0 <= j < |sortedHashes| && sortedHashes[j] == q;
        }
      }
      OwnerIs(ring, h, p);
      worker := Some(ring[p]);
    }
  }
}
