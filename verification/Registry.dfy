/** The worker registry and its monitor: expiring heartbeat keys, the sorted scan, the ring rebuild. */
module Registry {
  import opened Options
  import opened LexicalOrder
  import opened HashRing
  import opened Rebalancing
  import Membership

  const HB_KEY_PREFIX: string := "worker:hb:"

  function HbKey(worker: string): string {
    HB_KEY_PREFIX + worker
  }

  /** A scan for the prefix: some live keys in any order, possibly repeated. */
  predicate Scannable(keys: seq<string>) {
    forall i :: 0 <= i < |keys| ==> HB_KEY_PREFIX <= keys[i]
  }

  /** The worker ids of scanned heartbeat keys. */
  function Stripped(keys: seq<string>): seq<string>
    requires Scannable(keys)
  {
    seq(|keys|, i requires 0 <= i < |keys| => keys[i][|HB_KEY_PREFIX|..])
  }

  /** Whatever order and repetitions a scan brings, it stands for the workers whose keys it reports. */
  lemma StrippedWorkers(keys: seq<string>, worker: string)
    requires Scannable(keys)
    ensures worker in Stripped(keys) <==> HbKey(worker) in keys
  {
    if worker in Stripped(keys) {
      var i :| 0 <= i < |keys| && Stripped(keys)[i] == worker;
      assert keys[i] == HbKey(worker);
    }
    if HbKey(worker) in keys {
      var i :| 0 <= i < |keys| && keys[i] == HbKey(worker);
      assert Stripped(keys)[i] == worker;
    }
  }

  /** Two processes whose scans report the same keys build the same ring and route alike. */
  lemma SameScanSameRing(layout: Layout, a: seq<string>, b: seq<string>, h: int)
    requires Scannable(a) && Scannable(b) && Elements(a) == Elements(b)
    ensures Rebuilt(layout, Sort(Stripped(a))) == Rebuilt(layout, Sort(Stripped(b)))
    ensures Owner(Rebuilt(layout, Sort(Stripped(a))), h) == Owner(Rebuilt(layout, Sort(Stripped(b))), h)
  {
    forall w ensures w in Elements(Stripped(a)) <==> w in Elements(Stripped(b)) {
      StrippedWorkers(a, w);
      StrippedWorkers(b, w);
      assert HbKey(w) in Elements(a) <==> HbKey(w) in Elements(b);
    }
    CanonicalRebuild(layout, Stripped(a), Stripped(b));
  }

  /** The keys of the Redis master with their times of expiry. */
  class HeartbeatKeys {
    var expiry: map<string, real>

    constructor ()
      ensures forall time :: LiveAt(time) == {}
    {
      expiry := map[];
    }

    /** The keys that a scan at `time` finds, as things stand. */
    function LiveAt(time: real): set<string>
      reads this
    {
      set key | key in expiry && expiry[key] > time
    }
  }

  class WorkerRegistry {
    const keys: HeartbeatKeys
    const ring: ConsistentHashRing

    constructor (keys: HeartbeatKeys, ring: ConsistentHashRing)
      ensures this.keys == keys && this.ring == ring
    {
      this.keys, this.ring := keys, ring;
    }

    /** At startup: sets the worker's key with its time to live; the join message follows. */
    method Register(worker: string, now: real) returns (message: string)
      modifies keys
      ensures forall time :: keys.LiveAt(time) == old(keys.LiveAt(time)) - {"worker:hb:" + worker} +
                (if time < now + 10.0 then {"worker:hb:" + worker} else {})
      ensures message == "join:" + worker
    {
      keys.expiry := keys.expiry[HbKey(worker) := now + Membership.HB_TTL_SECONDS];
      message := "join:" + worker;
    }

    method Heartbeat(worker: string, now: real)
      modifies keys
      ensures forall time :: keys.LiveAt(time) == old(keys.LiveAt(time)) - {"worker:hb:" + worker} +
                (if time < now + 10.0 then {"worker:hb:" + worker} else {})
    {
      keys.expiry := keys.expiry[HbKey(worker) := now + Membership.HB_TTL_SECONDS];
    }

    method Deregister(worker: string) returns (message: string)
      modifies keys
      ensures forall time :: keys.LiveAt(time) == old(keys.LiveAt(time)) - {"worker:hb:" + worker}
      ensures message == "leave:" + worker
    {
      keys.expiry := keys.expiry - {HbKey(worker)};
      message := "leave:" + worker;
    }

    method ListWorkers(scan: seq<string>) returns (workers: seq<string>)
      requires Scannable(scan)
      ensures Ordered(workers) && workers == Sort(Stripped(scan))
    {
      workers := [];
      var i := 0;
      while i < |scan|
        invariant 0 <= i <= |scan| && workers == Stripped(scan)[..i]
      {
        workers := workers + [scan[i][|HB_KEY_PREFIX|..]];
        i := i + 1;
      }
      assert workers == Stripped(scan);
      SortOrdered(workers);
      workers := Sort(workers);
    }

    /** Rebuilds the ring from a scan. */
    method RefreshRing(scan: seq<string>) returns (workers: seq<string>)
      requires Scannable(scan)
      modifies ring
      ensures workers == Sort(Stripped(scan))
      ensures ring.Valid() && ring.ring == Rebuilt(ring.Layout(), workers)
    {
      workers := ListWorkers(scan);
      ring.ReplaceWorkers(workers);
    }
  }

  // ----- The monitor -----

  function Last(lists: seq<seq<string>>): seq<string> {
    if lists == [] then [] else lists[|lists| - 1]
  }

  /** The lists that differ from the one before, the first from the empty list. */
  function Changes(lists: seq<seq<string>>): seq<seq<string>> {
    if lists == [] then []
    else
      var before := lists[..|lists| - 1];
      Changes(before) + if lists[|lists| - 1] != Last(before) then [lists[|lists| - 1]] else []
  }

  /** Whoever follows the change callback knows the current list, and is never called without a
      change. */
  lemma {:induction false} CallbackFollowsRing(lists: seq<seq<string>>)
    ensures Last(Changes(lists)) == Last(lists)
    ensures forall i :: 0 < i < |Changes(lists)| ==> Changes(lists)[i - 1] != Changes(lists)[i]
  {
    if lists != [] {
      CallbackFollowsRing(lists[..|lists| - 1]);
    }
  }

  /** The list differs from the one before, or from the empty one at the start. */
  predicate ChangedAt(lists: seq<seq<string>>, k: nat) {
    k < |lists| && lists[k] != if k == 0 then [] else lists[k - 1]
  }

  ghost predicate AreChanges(changes: seq<seq<string>>, lists: seq<seq<string>>) {
    Selects(changes, lists, (k: nat) => ChangedAt(lists, k))
  }

  lemma ChangesOneMore(changes: seq<seq<string>>, lists: seq<seq<string>>)
    requires lists != [] && AreChanges(changes, lists[..|lists| - 1])
    ensures AreChanges(if ChangedAt(lists, |lists| - 1) then changes + [lists[|lists| - 1]] else changes, lists)
  {
    var before := lists[..|lists| - 1];
    forall k: nat | k < |before| ensures ChangedAt(before, k) == ChangedAt(lists, k) {}
    SelectsLast(changes, lists, (k: nat) => ChangedAt(before, k), (k: nat) => ChangedAt(lists, k));
  }

  /** The callback gets exactly the lists that differ from the one before, in order. */
  lemma {:induction false} ChangesAreSelected(lists: seq<seq<string>>)
    ensures AreChanges(Changes(lists), lists)
  {
    if lists == [] {
      SelectsNone<seq<string>>((k: nat) => ChangedAt(lists, k));
    } else {
      var before := lists[..|lists| - 1];
      ChangesAreSelected(before);
      ChangesOneMore(Changes(before), lists);
      assert ChangedAt(lists, |lists| - 1) <==> lists[|lists| - 1] != Last(before);
    }
  }

  lemma ChangesAppend(lists: seq<seq<string>>, list: seq<string>)
    ensures Changes(lists + [list]) == Changes(lists) + if list != Last(lists) then [list] else []
    ensures Last(lists + [list]) == list
  {
    assert (lists + [list])[..|lists|] == lists;
  }

  /** A refresh of the ring in the dispatcher's process: by the monitor's loop, or by the event watcher
      between two of its rounds. */
  datatype Refresh = ByMonitor(scan: seq<string>) | ByWatcher(scan: seq<string>)

  predicate AllScannable(refreshes: seq<Refresh>) {
    forall i :: 0 <= i < |refreshes| ==> Scannable(refreshes[i].scan)
  }

  /** The sorted worker lists that the monitor's own scans give. */
  function MonitorLists(refreshes: seq<Refresh>): seq<seq<string>>
    requires AllScannable(refreshes)
  {
    if refreshes == [] then []
    else
      var last := refreshes[|refreshes| - 1];
      MonitorLists(refreshes[..|refreshes| - 1]) + if last.ByMonitor? then [Sort(Stripped(last.scan))] else []
  }

  predicate MonitorAt(refreshes: seq<Refresh>, k: nat) {
    k < |refreshes| && refreshes[k].ByMonitor?
  }

  /** `lists` are the sorted scans of the monitor's own refreshes, in order. */
  ghost predicate AreMonitorLists(lists: seq<seq<string>>, refreshes: seq<Refresh>) {
    exists own: seq<Refresh> :: Selects(own, refreshes, (k: nat) => MonitorAt(refreshes, k)) && ListsOf(lists, own)
  }

  predicate ListsOf(lists: seq<seq<string>>, own: seq<Refresh>) {
    && |lists| == |own|
    && forall i :: 0 <= i < |own| ==> Scannable(own[i].scan) && lists[i] == Sort(Stripped(own[i].scan))
  }

  lemma {:induction false} MonitorListsAre(refreshes: seq<Refresh>)
    requires AllScannable(refreshes)
    ensures AreMonitorLists(MonitorLists(refreshes), refreshes)
  {
    if refreshes == [] {
      SelectsNone<Refresh>((k: nat) => MonitorAt(refreshes, k));
      assert ListsOf([], []);
    } else {
      MonitorListsAre(refreshes[..|refreshes| - 1]);
      OneMoreList(MonitorLists(refreshes[..|refreshes| - 1]), refreshes);
      assert MonitorLists(refreshes[..|refreshes| - 1]) + [] == MonitorLists(refreshes[..|refreshes| - 1]);
    }
  }

  lemma OwnOneMore(own: seq<Refresh>, refreshes: seq<Refresh>)
    requires refreshes != []
    requires Selects(own, refreshes[..|refreshes| - 1], (k: nat) => MonitorAt(refreshes[..|refreshes| - 1], k))
    ensures var last := refreshes[|refreshes| - 1];
            Selects(if last.ByMonitor? then own + [last] else own, refreshes, (k: nat) => MonitorAt(refreshes, k))
  {
    var before := refreshes[..|refreshes| - 1];
    forall k: nat | k < |before| ensures MonitorAt(before, k) == MonitorAt(refreshes, k) {}
    SelectsLast(own, refreshes, (k: nat) => MonitorAt(before, k), (k: nat) => MonitorAt(refreshes, k));
  }

  lemma OneMoreList(lists: seq<seq<string>>, refreshes: seq<Refresh>)
    requires refreshes != [] && AllScannable(refreshes) && AreMonitorLists(lists, refreshes[..|refreshes| - 1])
    ensures var last := refreshes[|refreshes| - 1];
            AreMonitorLists(if last.ByMonitor? then lists + [Sort(Stripped(last.scan))] else lists, refreshes)
  {
    var before, last := refreshes[..|refreshes| - 1], refreshes[|refreshes| - 1];
    var own: seq<Refresh> :| Selects(own, before, (k: nat) => MonitorAt(before, k)) && ListsOf(lists, own);
    OwnOneMore(own, refreshes);
    if last.ByMonitor? { assert ListsOf(lists + [Sort(Stripped(last.scan))], own + [last]); }
  }

  lemma OneMoreRefresh(refreshes: seq<Refresh>, i: nat, lists: seq<seq<string>>, workers: seq<string>)
    requires AllScannable(refreshes) && i < |refreshes|
    requires lists == MonitorLists(refreshes[..i]) && workers == Sort(Stripped(refreshes[i].scan))
    ensures MonitorLists(refreshes[..i + 1]) == if refreshes[i].ByMonitor? then lists + [workers] else lists
    ensures Changes(lists + [workers]) == Changes(lists) + if workers != Last(lists) then [workers] else []
    ensures Last(lists + [workers]) == workers
  {
    assert refreshes[..i + 1][..i] == refreshes[..i];
    ChangesAppend(lists, workers);
  }

  class HeartbeatMonitor {
    const registry: WorkerRegistry

    constructor (registry: WorkerRegistry)
      ensures this.registry == registry
    {
      this.registry := registry;
    }

    /** The monitor's loop until it is cancelled, with the watcher's refreshes between its rounds;
        `calls` are the arguments of the monitor's change callback. The ring is always that of the last
        refresh, and so, after a round of the monitor, that of the list last given to the callback. */
    method Run(refreshes: seq<Refresh>) returns (calls: seq<seq<string>>)
      requires AllScannable(refreshes)
      modifies registry.ring
      ensures calls == Changes(MonitorLists(refreshes))
      ensures refreshes != [] ==>
                var last := refreshes[|refreshes| - 1];
                && registry.ring.Valid()
                && registry.ring.ring == Rebuilt(registry.ring.Layout(), Sort(Stripped(last.scan)))
                && (last.ByMonitor? ==> Sort(Stripped(last.scan)) == Last(calls))
    {
      calls := [];
      var lastWorkers: seq<string> := [];
      ghost var lists: seq<seq<string>> := [];
      ghost var latest: seq<string> := [];
      var i := 0;
      while i < |refreshes|
        invariant 0 <= i <= |refreshes| && lists == MonitorLists(refreshes[..i])
        invariant lastWorkers == Last(lists) && calls == Changes(lists)
        invariant i > 0 ==> registry.ring.Valid() && registry.ring.ring == Rebuilt(registry.ring.Layout(), latest)
        invariant i > 0 ==> latest == Sort(Stripped(refreshes[i - 1].scan))
        invariant i > 0 && refreshes[i - 1].ByMonitor? ==> latest == lastWorkers
      {
        var workers := registry.RefreshRing(refreshes[i].scan);
        OneMoreRefresh(refreshes, i, lists, workers);
        latest := workers;
        if refreshes[i].ByMonitor? {
          lists := lists + [workers];
          if workers != lastWorkers {
            lastWorkers := workers;
            calls := calls + [workers];
          }
        }
        i := i + 1;
      }
      assert refreshes[..i] == refreshes;
      CallbackFollowsRing(lists);
    }
  }

  // ----- The registry's keys and the timed protocol -----

  /** The heartbeat keys that the protocol's state leaves live at a later time, if nothing happens. */
  function KeysOf(c: Membership.Cluster, time: real): set<string> {
    set w | w in c.expiry && c.expiry[w] > time :: HbKey(w)
  }

  /** What scans find is what the protocol's state says. */
  ghost predicate Mirrors(live: real -> set<string>, c: Membership.Cluster) {
    forall time :: time >= c.now ==> live(time) == KeysOf(c, time)
  }

  lemma KeysOfHolds(c: Membership.Cluster, time: real, w: string)
    ensures HbKey(w) in KeysOf(c, time) <==> w in c.expiry && c.expiry[w] > time
  {
    forall v | HbKey(v) == HbKey(w) ensures v == w {
      assert HbKey(v)[|HB_KEY_PREFIX|..] == v && HbKey(w)[|HB_KEY_PREFIX|..] == w;
    }
  }

  /** `Register` and `Heartbeat` do to the keys what the protocol's SET does. */
  lemma SetMirrors(before: real -> set<string>, after: real -> set<string>, c: Membership.Cluster, w: string,
                   since: real)
    requires Mirrors(before, c)
    requires forall time :: after(time) == before(time) - {HbKey(w)} +
               (if time < c.now + Membership.HB_TTL_SECONDS then {HbKey(w)} else {})
    ensures Mirrors(after, Membership.Followed(Membership.KeySet(c, w, since)))
  {
    var d := Membership.Followed(Membership.KeySet(c, w, since));
    forall time | time >= d.now ensures after(time) == KeysOf(d, time) {
      OneKeyChanged(c, d, time, w);
    }
  }

  /** `Deregister` does to the keys what the protocol's deletion does. */
  lemma DeleteMirrors(before: real -> set<string>, after: real -> set<string>, c: Membership.Cluster, w: string)
    requires Mirrors(before, c)
    requires forall time :: after(time) == before(time) - {HbKey(w)}
    ensures Mirrors(after, Membership.Followed(Membership.KeyDeleted(c, w)))
  {
    var d := Membership.Followed(Membership.KeyDeleted(c, w));
    forall time | time >= d.now ensures after(time) == KeysOf(d, time) {
      OneKeyChanged(c, d, time, w);
    }
  }

  lemma OneKeyChanged(c: Membership.Cluster, d: Membership.Cluster, time: real, w: string)
    requires w in d.expiry && d.expiry == c.expiry[w := d.expiry[w]]
    ensures KeysOf(d, time) == KeysOf(c, time) - {HbKey(w)} + (if d.expiry[w] > time then {HbKey(w)} else {})
  {
    forall key ensures key in KeysOf(d, time) <==>
                       key in KeysOf(c, time) - {HbKey(w)} + (if d.expiry[w] > time then {HbKey(w)} else {})
    {
      KeysOfHolds(c, time, w);
      KeysOfHolds(d, time, w);
      if v :| HbKey(v) == key {
        KeysOfHolds(c, time, v);
        KeysOfHolds(d, time, v);
      }
    }
  }

  /** The two halves together: no key is ever routed to a worker whose heartbeat key has been gone for
      longer than the monitor's rest and two scans. */
  lemma RoutedWithinLag(timing: Membership.Timing, events: seq<Membership.Event>, layout: Layout, scan: seq<string>,
                        h: int)
    requires Membership.TimingOk(timing) && Membership.Legal(timing, events, Membership.Start())
    requires Elements(scan) == Membership.After(timing, events, Membership.Start()).ring
    ensures var c := Membership.After(timing, events, Membership.Start());
            var owner := Owner(Rebuilt(layout, Sort(scan)), h);
            owner.Some? ==> owner.value in c.expiry && c.now <= c.expiry[owner.value] + Membership.Lag(timing)
  {
    RoutedToMembersOnly(layout, scan, h);
    var owner := Owner(Rebuilt(layout, Sort(scan)), h);
    if owner.Some? {
      assert owner.value in Elements(scan);
      Membership.RingFollowsKeys(timing, events, owner.value);
    }
  }
}
