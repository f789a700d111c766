/** How routing changes when workers join, leave, or the ring is rebuilt. */
module Rebalancing {
  import opened Options
  import opened LexicalOrder
  import opened HashRing

  // ----- Rebuilding from a sorted list of workers -----

  /** What a rebuild from the sorted list of `workers` installs: every point of every worker,
      owned by the largest worker id that has a virtual node there. */
  ghost predicate OwnedByLargest(layout: Layout, ring: map<int, string>, workers: set<string>) {
    && (forall w, h :: w in workers && h in layout(w) ==> h in ring && Leq(w, ring[h]))
    && (forall h :: h in ring ==> ring[h] in workers && h in layout(ring[h]))
  }

  lemma {:induction false} SortedRebuild(layout: Layout, workers: seq<string>)
    requires Ordered(workers)
    ensures OwnedByLargest(layout, Rebuilt(layout, workers), Elements(workers))
  {
    if workers != [] {
      var n := |workers| - 1;
      var rest, last := workers[..n], workers[n];
      SortedRebuild(layout, rest);
      LeqTotal(last, last);
      assert Elements(workers) == Elements(rest) + {last};
      var ring, was := Rebuilt(layout, workers), Rebuilt(layout, rest);
      forall w, h | w in Elements(workers) && h in layout(w)
        ensures h in ring && Leq(w, ring[h])
      {
        if h in layout(last) {
          assert ring[h] == last;
        } else {
          assert w in Elements(rest);
        }
      }
    }
  }

  lemma LargestIsUnique(layout: Layout, a: map<int, string>, b: map<int, string>, workers: set<string>)
    requires OwnedByLargest(layout, a, workers) && OwnedByLargest(layout, b, workers)
    ensures a == b
  {
    forall h ensures h in a <==> h in b {
      if h in a { assert a[h] in workers && h in layout(a[h]); }
      if h in b { assert b[h] in workers && h in layout(b[h]); }
    }
    forall h | h in a ensures a[h] == b[h] {
      assert a[h] in workers && h in layout(a[h]);
      assert b[h] in workers && h in layout(b[h]);
      LeqAntisymmetric(a[h], b[h]);
    }
    assert a.Keys == b.Keys;
  }

  /** Two processes whose scans see the same heartbeat keys, in any order and with any
      repetitions, build the same ring; collisions of virtual nodes do not matter. */
  lemma CanonicalRebuild(layout: Layout, scan: seq<string>, other: seq<string>)
    requires Elements(scan) == Elements(other)
    ensures Rebuilt(layout, Sort(scan)) == Rebuilt(layout, Sort(other))
    ensures OwnedByLargest(layout, Rebuilt(layout, Sort(scan)), Elements(scan))
  {
    SortOrdered(scan);
    SortOrdered(other);
    SortElements(scan);
    SortElements(other);
    SortedRebuild(layout, Sort(scan));
    SortedRebuild(layout, Sort(other));
    LargestIsUnique(layout, Rebuilt(layout, Sort(scan)), Rebuilt(layout, Sort(other)), Elements(scan));
  }

  /** Replacing one set of live workers by another never moves a key between two workers that
      are in both sets, whatever else joined or left and whichever points collide. */
  lemma MinimalDisruption(layout: Layout, before: seq<string>, after: seq<string>, h: int)
    ensures var was, now := Owner(Rebuilt(layout, Sort(before)), h), Owner(Rebuilt(layout, Sort(after)), h);
            was.Some? && now.Some? && was.value in after && now.value in before ==> was == now
  {
    CanonicalRebuild(layout, before, before);
    CanonicalRebuild(layout, after, after);
    var r, s := Rebuilt(layout, Sort(before)), Rebuilt(layout, Sort(after));
    if Owner(r, h).Some? && Owner(s, h).Some? && Owner(r, h).value in after && Owner(s, h).value in before {
      SharedOwner(layout, r, s, Elements(before), Elements(after), h);
    }
  }

  lemma SharedOwner(layout: Layout, r: map<int, string>, s: map<int, string>, before: set<string>, after: set<string>,
                    h: int)
    requires OwnedByLargest(layout, r, before) && OwnedByLargest(layout, s, after)
    requires Owner(r, h).Some? && Owner(r, h).value in after
    requires Owner(s, h).Some? && Owner(s, h).value in before
    ensures Owner(r, h) == Owner(s, h)
  {
    var x, y := Successor(r.Keys, h), Successor(s.Keys, h);
    assert x in layout(r[x]) && y in layout(s[y]);
    FollowsAgree(r.Keys, s.Keys, h, x, y);
    LeqAntisymmetric(r[x], s[y]);
  }

  /** After a rebuild no key is routed to a worker that the scan did not report. */
  lemma RoutedToMembersOnly(layout: Layout, scan: seq<string>, h: int)
    ensures var owner := Owner(Rebuilt(layout, Sort(scan)), h);
            owner.Some? ==> owner.value in scan
  {
    CanonicalRebuild(layout, scan, scan);
    var ring := Rebuilt(layout, Sort(scan));
    if Owner(ring, h).Some? {
      assert Successor(ring.Keys, h) in ring;
      assert Owner(ring, h).value in Elements(scan);
    }
  }

  // ----- Adding and removing one worker -----

  /** A key changes owner on a join only to go to the newcomer. */
  lemma JoinStealsOnly(layout: Layout, ring: map<int, string>, worker: string, h: int)
    ensures Owner(Added(layout, ring, worker), h) == Owner(ring, h) ||
            Owner(Added(layout, ring, worker), h) == Some(worker)
  {
    var grown := Added(layout, ring, worker);
    if |grown.Keys| == 0 {
      assert forall x :: x in ring ==> x in grown;
      assert |ring.Keys| == 0;
    } else {
      var y := Successor(grown.Keys, h);
      if y !in layout(worker) {
        assert y in ring && grown[y] == ring[y];
        assert forall q :: q in ring ==> q in grown.Keys;
        OwnerIs(ring, h, y);
      }
    }
  }

  /** Adding a worker and removing it again restores the ring exactly when none of its points
      was taken before: a collision with another worker's virtual node is lost for good. */
  lemma AddThenRemove(layout: Layout, ring: map<int, string>, worker: string)
    ensures Removed(layout, Added(layout, ring, worker), worker) == ring <==> layout(worker) !! ring.Keys
  {
    var back := Removed(layout, Added(layout, ring, worker), worker);
    assert back == ring - layout(worker);
    if !(layout(worker) !! ring.Keys) {
      var h := CommonPoint(layout(worker), ring.Keys);
      assert h in ring && h !in back;
    }
  }

  lemma CommonPoint<T>(a: set<T>, b: set<T>) returns (h: T)
    requires !(a !! b)
    ensures h in a && h in b
  {
    h :| h in a && h in b;
  }

  /** The order in which two workers join matters exactly when they share a point. */
  lemma JoinOrder(layout: Layout, ring: map<int, string>, v: string, w: string)
    requires v != w
    ensures Added(layout, Added(layout, ring, v), w) == Added(layout, Added(layout, ring, w), v) <==>
            layout(v) !! layout(w)
  {
    if layout(v) !! layout(w) {
      StampsCommute(ring, layout(v), v, layout(w), w);
    } else {
      var h := CommonPoint(layout(v), layout(w));
      assert Added(layout, Added(layout, ring, v), w)[h] == w && Added(layout, Added(layout, ring, w), v)[h] == v;
    }
  }

  lemma StampsCommute(ring: map<int, string>, a: set<int>, v: string, b: set<int>, w: string)
    requires a !! b
    ensures Stamped(Stamped(ring, a, v), b, w) == Stamped(Stamped(ring, b, w), a, v)
  {}

  // ----- History independence -----

  datatype Change = Add(worker: string) | Remove(worker: string) | Replace(workers: seq<string>)

  function RingAfter(layout: Layout, changes: seq<Change>): map<int, string> {
    if changes == [] then map[]
    else
      var ring := RingAfter(layout, changes[..|changes| - 1]);
      match changes[|changes| - 1]
      case Add(w) => Added(layout, ring, w)
      case Remove(w) => Removed(layout, ring, w)
      case Replace(ws) => Rebuilt(layout, ws)
  }

  function LiveAfter(changes: seq<Change>): set<string> {
    if changes == [] then {}
    else
      var live := LiveAfter(changes[..|changes| - 1]);
      match changes[|changes| - 1]
      case Add(w) => live + {w}
      case Remove(w) => live - {w}
      case Replace(ws) => Elements(ws)
  }

  function Mentioned(changes: seq<Change>): set<string> {
    if changes == [] then {}
    else
      Mentioned(changes[..|changes| - 1]) +
      match changes[|changes| - 1]
      case Add(w) => {w}
      case Remove(w) => {w}
      case Replace(ws) => Elements(ws)
  }

  /** No virtual node of one worker hashes to a point of another. */
  ghost predicate CollisionFree(layout: Layout, workers: set<string>) {
    forall v, w :: v in workers && w in workers && v != w ==> layout(v) !! layout(w)
  }

  /** The labels of distinct virtual nodes differ, so a digest that is injective on the labels
      in play makes no two workers collide. */
  lemma InjectiveDigest(hash: string -> int, virtualNodes: int, workers: set<string>)
    requires forall v, i: nat, w, j: nat | v in workers && w in workers && i < virtualNodes && j < virtualNodes ::
               Label(v, i) != Label(w, j) ==> hash(Label(v, i)) != hash(Label(w, j))
    ensures CollisionFree(LayoutOf(hash, virtualNodes), workers)
  {
    var layout := LayoutOf(hash, virtualNodes);
    forall v, w | v in workers && w in workers && v != w ensures layout(v) !! layout(w) {
      SpotsAre(hash, v, virtualNodes);
      SpotsAre(hash, w, virtualNodes);
      forall h | h in layout(v) && h in layout(w) ensures false {
        var i :| 0 <= i < virtualNodes && hash(Label(v, i)) == h;
        var j :| 0 <= j < virtualNodes && hash(Label(w, j)) == h;
        if Label(v, i) == Label(w, j) { LabelInjective(v, i, w, j); }
      }
    }
  }

  ghost predicate HoldsExactly(layout: Layout, ring: map<int, string>, live: set<string>) {
    && (forall w, h :: w in live && h in layout(w) ==> h in ring && ring[h] == w)
    && (forall h :: h in ring ==> ring[h] in live && h in layout(ring[h]))
  }

  lemma {:induction false} RebuiltHoldsExactly(layout: Layout, workers: seq<string>)
    requires CollisionFree(layout, Elements(workers))
    ensures HoldsExactly(layout, Rebuilt(layout, workers), Elements(workers))
  {
    if workers != [] {
      var n := |workers| - 1;
      assert Elements(workers) == Elements(workers[..n]) + {workers[n]};
      RebuiltHoldsExactly(layout, workers[..n]);
      AddedHoldsExactly(layout, Rebuilt(layout, workers[..n]), Elements(workers[..n]), workers[n]);
    }
  }

  lemma AddedHoldsExactly(layout: Layout, ring: map<int, string>, live: set<string>, worker: string)
    requires CollisionFree(layout, live + {worker}) && HoldsExactly(layout, ring, live)
    ensures HoldsExactly(layout, Added(layout, ring, worker), live + {worker})
  {
    var grown := Added(layout, ring, worker);
    forall w, h | w in live + {worker} && h in layout(w) ensures h in grown && grown[h] == w {
      if w != worker {
        assert layout(w) !! layout(worker);
      }
    }
  }

  lemma RemovedHoldsExactly(layout: Layout, ring: map<int, string>, live: set<string>, worker: string)
    requires CollisionFree(layout, live + {worker}) && HoldsExactly(layout, ring, live)
    ensures HoldsExactly(layout, Removed(layout, ring, worker), live - {worker})
  {
    var shrunk := Removed(layout, ring, worker);
    forall w, h | w in live - {worker} && h in layout(w) ensures h in shrunk && shrunk[h] == w {
      assert layout(w) !! layout(worker);
    }
  }

  lemma {:induction false} RingAfterHoldsExactly(layout: Layout, changes: seq<Change>)
    requires CollisionFree(layout, Mentioned(changes))
    ensures LiveAfter(changes) <= Mentioned(changes)
    ensures HoldsExactly(layout, RingAfter(layout, changes), LiveAfter(changes))
  {
    if changes != [] {
      var before := changes[..|changes| - 1];
      RingAfterHoldsExactly(layout, before);
      match changes[|changes| - 1]
      case Add(w) => AddedHoldsExactly(layout, RingAfter(layout, before), LiveAfter(before), w);
      case Remove(w) => RemovedHoldsExactly(layout, RingAfter(layout, before), LiveAfter(before), w);
      case Replace(ws) => RebuiltHoldsExactly(layout, ws);
    }
  }

  /** Whatever joined, left or was replaced in whatever order, the ring is the one a single
      rebuild from the workers now live would give, listed in any order. */
  lemma HistoryIndependence(layout: Layout, changes: seq<Change>, workers: seq<string>)
    requires CollisionFree(layout, Mentioned(changes))
    requires Elements(workers) == LiveAfter(changes)
    ensures RingAfter(layout, changes) == Rebuilt(layout, workers)
  {
    RingAfterHoldsExactly(layout, changes);
    RebuiltHoldsExactly(layout, workers);
    ExactIsUnique(layout, RingAfter(layout, changes), Rebuilt(layout, workers), LiveAfter(changes));
  }

  lemma ExactIsUnique(layout: Layout, a: map<int, string>, b: map<int, string>, live: set<string>)
    requires HoldsExactly(layout, a, live) && HoldsExactly(layout, b, live)
    ensures a == b
  {
    forall h ensures h in a <==> h in b {
      if h in a { assert a[h] in live && h in layout(a[h]); }
      if h in b { assert b[h] in live && h in layout(b[h]); }
    }
    forall h | h in a ensures a[h] == b[h] {
      assert a[h] in live && h in layout(a[h]);
    }
    assert a.Keys == b.Keys;
  }

  /** Whatever happens to workers among `all`, the ring is determined by who is live. */
  ghost predicate ForgetsHistory(layout: Layout, all: set<string>) {
    forall changes, workers :: Mentioned(changes) <= all && Elements(workers) == LiveAfter(changes) ==>
      RingAfter(layout, changes) == Rebuilt(layout, workers)
  }

  /** The ring forgets its history exactly when no two workers share a point. */
  lemma HistoryForgottenExactly(layout: Layout, all: set<string>)
    ensures ForgetsHistory(layout, all) <==> CollisionFree(layout, all)
  {
    if CollisionFree(layout, all) {
      forall changes, workers | Mentioned(changes) <= all && Elements(workers) == LiveAfter(changes)
        ensures RingAfter(layout, changes) == Rebuilt(layout, workers)
      {
        HistoryIndependence(layout, changes, workers);
      }
    } else {
      var v, w :| v in all && w in all && v != w && !(layout(v) !! layout(w));
      HistoryRemembered(layout, v, w);
    }
  }

  lemma TwoJoins(layout: Layout, v: string, w: string)
    ensures Mentioned([Add(v), Add(w)]) == LiveAfter([Add(v), Add(w)]) == Elements([w, v]) == {v, w}
    ensures RingAfter(layout, [Add(v), Add(w)]) == Added(layout, Added(layout, map[], v), w)
  {
    var changes := [Add(v), Add(w)];
    assert changes[..1] == [Add(v)] && changes[..1][..0] == [];
    assert Mentioned(changes[..1]) == LiveAfter(changes[..1]) == {v};
    assert RingAfter(layout, changes[..1]) == Added(layout, map[], v);
  }

  lemma TwoListed(layout: Layout, v: string, w: string)
    ensures Rebuilt(layout, [v, w]) == Added(layout, Added(layout, map[], v), w)
  {
    assert [v, w][..1] == [v] && [v, w][..1][..0] == [];
    assert Rebuilt(layout, [v, w][..1]) == Added(layout, map[], v);
  }

  /** Two workers with a common point: the ring tells who joined last. */
  lemma HistoryRemembered(layout: Layout, v: string, w: string)
    requires v != w && !(layout(v) !! layout(w))
    ensures Mentioned([Add(v), Add(w)]) == LiveAfter([Add(v), Add(w)]) == Elements([w, v]) == {v, w}
    ensures RingAfter(layout, [Add(v), Add(w)]) != Rebuilt(layout, [w, v])
  {
    TwoJoins(layout, v, w);
    TwoListed(layout, w, v);
    JoinOrder(layout, map[], v, w);
  }

  // ----- How many keys move -----

  predicate HasSpot(layout: Layout, worker: string) {
    layout(worker) != {}
  }

  /** How many of the keys, each given by its hash, get another owner when `worker` is removed from `ring`. */
  ghost function Moved(layout: Layout, ring: map<int, string>, worker: string, keys: seq<int>): nat {
    if keys == [] then 0
    else
      var h := keys[0];
      (if Owner(ring, h) != Owner(Removed(layout, ring, worker), h) then 1 else 0) +
      Moved(layout, ring, worker, keys[1..])
  }

  /** The sum of `Moved` over the removal of each of `workers` in turn, each from the full ring. */
  ghost function MovedInTotal(layout: Layout, ring: map<int, string>, workers: seq<string>, keys: seq<int>): nat {
    if workers == [] then 0
    else Moved(layout, ring, workers[0], keys) + MovedInTotal(layout, ring, workers[1..], keys)
  }

  /** A key stays with its owner when another worker leaves. */
  lemma OwnerStays(layout: Layout, ring: map<int, string>, live: set<string>, worker: string, h: int)
    requires CollisionFree(layout, live) && HoldsExactly(layout, ring, live) && worker in live
    requires |ring.Keys| > 0 && ring[Successor(ring.Keys, h)] != worker
    ensures Owner(Removed(layout, ring, worker), h) == Owner(ring, h)
  {
    var shrunk := Removed(layout, ring, worker);
    var y := Successor(ring.Keys, h);
    assert layout(ring[y]) !! layout(worker);
    assert y in shrunk.Keys;
    assert Follows(shrunk.Keys, h, y);
    OwnerIs(shrunk, h, y);
  }

  lemma OwnerGone(layout: Layout, ring: map<int, string>, live: set<string>, worker: string, h: int)
    requires CollisionFree(layout, live) && HoldsExactly(layout, ring, live) && worker in live
    ensures Owner(Removed(layout, ring, worker), h) != Some(worker)
  {
    assert live + {worker} == live;
    RemovedHoldsExactly(layout, ring, live, worker);
    var shrunk := Removed(layout, ring, worker);
    if |shrunk.Keys| > 0 { assert Successor(shrunk.Keys, h) in shrunk; }
  }

  /** A key moves when a worker leaves exactly when that worker owned it. */
  lemma MovesIffOwned(layout: Layout, ring: map<int, string>, live: set<string>, worker: string, other: string, h: int)
    requires CollisionFree(layout, live) && HoldsExactly(layout, ring, live)
    requires worker in live && other in live && other != worker && HasSpot(layout, other)
    ensures Owner(ring, h) != Owner(Removed(layout, ring, worker), h) <==> Owner(ring, h) == Some(worker)
  {
    var x := AnyOf(layout(other));
    assert x in layout(other) && x in ring.Keys;
    OwnerGone(layout, ring, live, worker, h);
    if ring[Successor(ring.Keys, h)] != worker { OwnerStays(layout, ring, live, worker, h); }
  }

  lemma {:induction false} NoKeysNoMoves(layout: Layout, ring: map<int, string>, workers: seq<string>)
    ensures MovedInTotal(layout, ring, workers, []) == 0
  {
    if workers != [] { NoKeysNoMoves(layout, ring, workers[1..]); }
  }

  /** One key more adds one move for each listing of its owner, and nothing else. */
  lemma {:induction false} OneKeyMore(layout: Layout, ring: map<int, string>, live: set<string>, workers: seq<string>,
                                      keys: seq<int>)
    requires CollisionFree(layout, live) && HoldsExactly(layout, ring, live)
    requires Elements(workers) <= live && |live| >= 2
    requires forall w :: w in live ==> HasSpot(layout, w)
    requires Distinct(workers) && keys != []
    ensures var owner := Owner(ring, keys[0]);
            MovedInTotal(layout, ring, workers, keys) == MovedInTotal(layout, ring, workers, keys[1..]) +
            if owner.Some? && owner.value in workers then 1 else 0
  {
    if workers != [] {
      var w := workers[0];
      assert w in Elements(workers);
      assert live - {w} != {} by {
        assert |live - {w}| == |live| - 1;
      }
      MovesIffOwned(layout, ring, live, w, AnyOf(live - {w}), keys[0]);
      assert Elements(workers[1..]) <= Elements(workers);
      OneKeyMore(layout, ring, live, workers[1..], keys);
      assert w !in workers[1..];
    }
  }

  /** Over the removals of each of two or more workers, every key moves exactly once. */
  lemma EveryKeyMovesOnce(layout: Layout, workers: seq<string>, keys: seq<int>)
    requires Distinct(workers) && |workers| >= 2
    requires CollisionFree(layout, Elements(workers))
    requires forall w :: w in Elements(workers) ==> HasSpot(layout, w)
    ensures MovedInTotal(layout, Rebuilt(layout, workers), workers, keys) == |keys|
  {
    RebuiltHoldsExactly(layout, workers);
    var live := Elements(workers);
    assert workers[0] in live && workers[1] in live;
    SubsetSize({workers[0], workers[1]}, live);
    EachKeyMovesOnce(layout, Rebuilt(layout, workers), workers, keys);
  }

  lemma OwnerIsLive(layout: Layout, ring: map<int, string>, live: set<string>, worker: string, h: int)
    requires HoldsExactly(layout, ring, live) && worker in live && HasSpot(layout, worker)
    ensures Owner(ring, h).Some? && Owner(ring, h).value in live
  {
    var x := AnyOf(layout(worker));
    assert x in ring.Keys;
    assert Successor(ring.Keys, h) in ring;
  }

  lemma {:induction false} EachKeyMovesOnce(layout: Layout, ring: map<int, string>, workers: seq<string>,
                                            keys: seq<int>)
    requires Distinct(workers) && workers != [] && |Elements(workers)| >= 2
    requires CollisionFree(layout, Elements(workers)) && HoldsExactly(layout, ring, Elements(workers))
    requires forall w :: w in Elements(workers) ==> HasSpot(layout, w)
    ensures MovedInTotal(layout, ring, workers, keys) == |keys|
  {
    if keys == [] {
      NoKeysNoMoves(layout, ring, workers);
    } else {
      EachKeyMovesOnce(layout, ring, workers, keys[1..]);
      assert workers[0] in Elements(workers);
      OwnerIsLive(layout, ring, Elements(workers), workers[0], keys[0]);
      OneKeyMore(layout, ring, Elements(workers), workers, keys);
    }
  }

  lemma {:induction false} SubsetSize<T>(a: set<T>, b: set<T>)
    requires a <= b
    ensures |a| <= |b|
  {
    assert b == a + (b - a);
  }

  /** Some worker's departure moves at most its fair share, K / N, of the keys. */
  lemma FairShare(layout: Layout, workers: seq<string>, keys: seq<int>)
    requires Distinct(workers) && |workers| >= 2
    requires CollisionFree(layout, Elements(workers))
    requires forall w :: w in Elements(workers) ==> HasSpot(layout, w)
    ensures exists w :: w in workers && Moved(layout, Rebuilt(layout, workers), w, keys) * |workers| <= |keys|
  {
    EveryKeyMovesOnce(layout, workers, keys);
    var w := LeastMoved(layout, Rebuilt(layout, workers), workers, keys);
    TimesIsProduct(Moved(layout, Rebuilt(layout, workers), w, keys), |workers|);
  }

  function Times(m: nat, k: nat): nat {
    if k == 0 then 0 else m + Times(m, k - 1)
  }

  lemma {:induction false} TimesIsProduct(m: nat, k: nat)
    ensures Times(m, k) == m * k
  {
    if k > 0 { TimesIsProduct(m, k - 1); }
  }

  lemma {:induction false} TimesMonotone(m: nat, n: nat, k: nat)
    requires m <= n
    ensures Times(m, k) <= Times(n, k)
  {
    if k > 0 { TimesMonotone(m, n, k - 1); }
  }

  lemma {:induction false} LeastMoved(layout: Layout, ring: map<int, string>, workers: seq<string>,
                                      keys: seq<int>) returns (w: string)
    requires workers != []
    ensures w in workers
    ensures Times(Moved(layout, ring, w, keys), |workers|) <= MovedInTotal(layout, ring, workers, keys)
  {
    w := workers[0];
    var m := Moved(layout, ring, w, keys);
    if |workers| > 1 {
      var v := LeastMoved(layout, ring, workers[1..], keys);
      var n := Moved(layout, ring, v, keys);
      if n <= m {
        w := v;
      } else {
        TimesMonotone(m, n, |workers| - 1);
      }
    }
  }
}
