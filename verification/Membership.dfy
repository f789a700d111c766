/** The heartbeat protocol in time: workers that refresh expiring keys, a monitor that scans the
    keys periodically and rebuilds the ring, and a watcher that does the same on membership events. */
module Membership {
  const HB_TTL_SECONDS: real := 10.0
  const HEARTBEAT_INTERVAL: real := 3.0

  /** Bounds on what the surroundings take: the delay of a heartbeat, the length of a scan, and the
      rest of the monitor between two scans, which is its interval and the change callback. */
  datatype Timing = Timing(beatDelay: real, scanTime: real, restTime: real)

  /** A scan of the keys. It must report the keys live all through it, and may report those live at
      some moment of it. */
  datatype Scan = Scan(begin: real, always: set<string>, ever: set<string>)

  /** A running worker: when it registered and when it last refreshed its key. */
  datatype Member = Member(since: real, beat: real)

  datatype Monitor = Scanning(scan: Scan) | Resting(since: real)

  datatype Watcher = Watching(scan: Scan) | Idle

  /** `expiry` tells until when each worker's key lives, a deleted key until its deletion. `ring` is the
      member set that the dispatcher's ring was last rebuilt from, by a scan begun at `source`. */
  datatype Cluster = Cluster(
    now: real,
    expiry: map<string, real>,
    running: map<string, Member>,
    monitor: Monitor,
    watcher: Watcher,
    monitorEnd: real,
    ring: set<string>,
    source: real,
    installed: real)

  datatype Event =
    | Tick(elapsed: real)
    | Register(worker: string)
    | Beat(worker: string)
    | Deregister(worker: string)
    | Crash(worker: string)
    | ScanStart
    | ScanEnd(seen: set<string>)
    | WatchStart
    | WatchEnd(seen: set<string>)

  predicate IsLive(c: Cluster, worker: string) {
    worker in c.expiry && c.expiry[worker] > c.now
  }

  function Live(c: Cluster): set<string> {
    set w | w in c.expiry && IsLive(c, w)
  }

  predicate Reports(seen: set<string>, scan: Scan) {
    scan.always <= seen <= scan.ever
  }

  /** Time passes no further than a deadline of something under way. */
  ghost predicate MayElapse(timing: Timing, c: Cluster, elapsed: real) {
    var later := c.now + elapsed;
    && elapsed > 0.0
    && (forall w :: w in c.running ==> later <= c.running[w].beat + HEARTBEAT_INTERVAL + timing.beatDelay)
    && (match c.monitor
        case Scanning(scan) => later <= scan.begin + timing.scanTime
        case Resting(since) => later <= since + timing.restTime)
    && (c.watcher.Watching? ==> later <= c.watcher.scan.begin + timing.scanTime)
  }

  ghost predicate Enabled(timing: Timing, e: Event, c: Cluster) {
    match e
    case Tick(elapsed) => MayElapse(timing, c, elapsed)
    case Register(w) => w !in c.running
    case Beat(w) => w in c.running
    case Deregister(w) => w in c.running
    case Crash(w) => w in c.running
    case ScanStart => c.monitor.Resting?
    case ScanEnd(seen) => c.monitor.Scanning? && Reports(seen, c.monitor.scan)
    case WatchStart => c.watcher.Idle?
    case WatchEnd(seen) => c.watcher.Watching? && Reports(seen, c.watcher.scan)
  }

  /** Applies a change of the keys' lives to a scan under way. */
  function Follow(scan: Scan, live: set<string>): Scan {
    scan.(always := scan.always * live, ever := scan.ever + live)
  }

  function Followed(c: Cluster): Cluster {
    c.(monitor := if c.monitor.Scanning? then Scanning(Follow(c.monitor.scan, Live(c))) else c.monitor,
       watcher := if c.watcher.Watching? then Watching(Follow(c.watcher.scan, Live(c))) else c.watcher)
  }

  /** The worker SETs its key with the time to live. */
  function KeySet(c: Cluster, w: string, since: real): Cluster {
    c.(expiry := c.expiry[w := c.now + HB_TTL_SECONDS], running := c.running[w := Member(since, c.now)])
  }

  function Stopped(c: Cluster, w: string): Cluster {
    c.(running := c.running - {w})
  }

  function KeyDeleted(c: Cluster, w: string): Cluster {
    Stopped(c, w).(expiry := c.expiry[w := c.now])
  }

  ghost function Next(timing: Timing, e: Event, c: Cluster): Cluster
    requires Enabled(timing, e, c)
  {
    match e
    case Tick(elapsed) => Followed(c.(now := c.now + elapsed))
    case Register(w) => Followed(KeySet(c, w, c.now))
    case Beat(w) => Followed(KeySet(c, w, c.running[w].since))
    case Deregister(w) => Followed(KeyDeleted(c, w))
    case Crash(w) => Stopped(c, w)
    case ScanStart => c.(monitor := Scanning(Scan(c.now, Live(c), Live(c))))
    case ScanEnd(seen) =>
      c.(ring := seen, source := c.monitor.scan.begin, installed := c.now,
         monitor := Resting(c.now), monitorEnd := c.now)
    case WatchStart => c.(watcher := Watching(Scan(c.now, Live(c), Live(c))))
    case WatchEnd(seen) =>
      c.(ring := seen, source := c.watcher.scan.begin, installed := c.now, watcher := Idle)
  }

  function Start(): Cluster {
    Cluster(0.0, map[], map[], Resting(0.0), Idle, 0.0, {}, 0.0, 0.0)
  }

  ghost predicate Legal(timing: Timing, events: seq<Event>, c: Cluster) {
    events == [] || (Enabled(timing, events[0], c) && Legal(timing, events[1..], Next(timing, events[0], c)))
  }

  ghost function After(timing: Timing, events: seq<Event>, c: Cluster): Cluster
    requires Legal(timing, events, c)
  {
    if events == [] then c else After(timing, events[1..], Next(timing, events[0], c))
  }

  // ----- The invariant -----

  ghost predicate TimingOk(timing: Timing) {
    && timing.beatDelay >= 0.0 && timing.scanTime >= 0.0 && timing.restTime >= 0.0
    && HEARTBEAT_INTERVAL + timing.beatDelay < HB_TTL_SECONDS
  }

  /** A running worker has refreshed its key recently enough. */
  ghost predicate RunningOk(timing: Timing, c: Cluster, w: string) {
    && w in c.running && w in c.expiry
    && c.running[w].since <= c.running[w].beat <= c.now <= c.running[w].beat + HEARTBEAT_INTERVAL + timing.beatDelay
    && c.expiry[w] == c.running[w].beat + HB_TTL_SECONDS
  }

  ghost predicate ScanOk(timing: Timing, c: Cluster, scan: Scan) {
    && scan.begin <= c.now <= scan.begin + timing.scanTime
    && (forall w :: w in c.running && c.running[w].since < scan.begin ==> w in scan.always)
    && (forall w :: w in scan.ever ==> w in c.expiry && c.expiry[w] >= scan.begin)
  }

  ghost predicate RingOk(timing: Timing, c: Cluster) {
    && c.installed - timing.scanTime <= c.source <= c.now
    && (forall w :: w in c.running && c.running[w].since < c.source ==> w in c.ring)
    && (forall w :: w in c.ring ==> w in c.expiry && c.expiry[w] >= c.source)
  }

  ghost predicate MonitorOk(timing: Timing, c: Cluster) {
    && c.monitorEnd <= c.installed <= c.now
    && match c.monitor
       case Scanning(scan) => scan.begin <= c.monitorEnd + timing.restTime && ScanOk(timing, c, scan)
       case Resting(since) => since == c.monitorEnd && c.now <= since + timing.restTime
  }

  ghost predicate Inv(timing: Timing, c: Cluster) {
    && (forall w :: w in c.running ==> RunningOk(timing, c, w))
    && RingOk(timing, c)
    && MonitorOk(timing, c)
    && (c.watcher.Watching? ==> ScanOk(timing, c, c.watcher.scan))
  }

  lemma RunningIsLive(timing: Timing, c: Cluster, w: string)
    requires TimingOk(timing) && w in c.running && RunningOk(timing, c, w)
    ensures w in Live(c)
  {}

  /** What a change of the keys, or the passing of time, may do to the workers. */
  ghost predicate Moves(timing: Timing, c: Cluster, d: Cluster) {
    && c.now <= d.now
    && (forall w :: w in d.running ==> RunningOk(timing, d, w))
    && (forall w :: w in d.running ==>
          (w in c.running && c.running[w].since == d.running[w].since) || d.running[w].since == d.now)
    && (forall w :: w in c.expiry ==> w in d.expiry && (d.expiry[w] == c.expiry[w] || d.expiry[w] >= c.now))
  }

  lemma ScanFollows(timing: Timing, c: Cluster, d: Cluster, scan: Scan)
    requires TimingOk(timing) && ScanOk(timing, c, scan) && Moves(timing, c, d)
    requires d.now <= scan.begin + timing.scanTime
    ensures ScanOk(timing, d, Follow(scan, Live(d)))
  {
    forall w | w in d.running && d.running[w].since < scan.begin ensures w in Follow(scan, Live(d)).always {
      RunningIsLive(timing, d, w);
    }
  }

  lemma FollowedKeepsInv(timing: Timing, c: Cluster, d: Cluster)
    requires TimingOk(timing) && Inv(timing, c) && Moves(timing, c, d)
    requires d == c.(now := d.now, expiry := d.expiry, running := d.running)
    requires match c.monitor
             case Scanning(scan) => d.now <= scan.begin + timing.scanTime
             case Resting(since) => d.now <= since + timing.restTime
    requires c.watcher.Watching? ==> d.now <= c.watcher.scan.begin + timing.scanTime
    ensures Inv(timing, Followed(d))
  {
    if c.monitor.Scanning? { ScanFollows(timing, c, d, c.monitor.scan); }
    if c.watcher.Watching? { ScanFollows(timing, c, d, c.watcher.scan); }
    forall w | w in d.running ensures RunningOk(timing, Followed(d), w) {
      assert RunningOk(timing, d, w);
    }
  }

  lemma StepKeepsInv(timing: Timing, e: Event, c: Cluster)
    requires TimingOk(timing) && Inv(timing, c) && Enabled(timing, e, c)
    ensures Inv(timing, Next(timing, e, c))
  {
    match e
    case Tick(elapsed) => TickKeepsInv(timing, elapsed, c);
    case Register(w) => KeySetKeepsInv(timing, c, w, c.now);
    case Beat(w) => KeySetKeepsInv(timing, c, w, c.running[w].since);
    case Deregister(w) => KeyDeletedKeepsInv(timing, c, w);
    case Crash(w) => CrashKeepsInv(timing, c, w);
    case ScanStart => ScanStartKeepsInv(timing, c);
    case WatchStart => WatchStartKeepsInv(timing, c);
    case ScanEnd(seen) => ScanEndKeepsInv(timing, c, seen);
    case WatchEnd(seen) => WatchEndKeepsInv(timing, c, seen);
  }

  lemma CrashKeepsInv(timing: Timing, c: Cluster, w: string)
    requires Inv(timing, c)
    ensures Inv(timing, Stopped(c, w))
  {
    forall v | v in Stopped(c, w).running ensures RunningOk(timing, Stopped(c, w), v) {
      assert RunningOk(timing, c, v);
    }
  }

  lemma ScanEndKeepsInv(timing: Timing, c: Cluster, seen: set<string>)
    requires TimingOk(timing) && Inv(timing, c) && Enabled(timing, ScanEnd(seen), c)
    ensures Inv(timing, Next(timing, ScanEnd(seen), c))
  {
    forall w | w in c.running ensures RunningOk(timing, Next(timing, ScanEnd(seen), c), w) {
      assert RunningOk(timing, c, w);
    }
  }

  lemma WatchEndKeepsInv(timing: Timing, c: Cluster, seen: set<string>)
    requires TimingOk(timing) && Inv(timing, c) && Enabled(timing, WatchEnd(seen), c)
    ensures Inv(timing, Next(timing, WatchEnd(seen), c))
  {
    forall w | w in c.running ensures RunningOk(timing, Next(timing, WatchEnd(seen), c), w) {
      assert RunningOk(timing, c, w);
    }
  }

  lemma ScanStartKeepsInv(timing: Timing, c: Cluster)
    requires TimingOk(timing) && Inv(timing, c) && Enabled(timing, ScanStart, c)
    ensures Inv(timing, Next(timing, ScanStart, c))
  {
    NewScanOk(timing, c);
    forall w | w in c.running ensures RunningOk(timing, Next(timing, ScanStart, c), w) {
      assert RunningOk(timing, c, w);
    }
  }

  lemma WatchStartKeepsInv(timing: Timing, c: Cluster)
    requires TimingOk(timing) && Inv(timing, c) && Enabled(timing, WatchStart, c)
    ensures Inv(timing, Next(timing, WatchStart, c))
  {
    NewScanOk(timing, c);
    forall w | w in c.running ensures RunningOk(timing, Next(timing, WatchStart, c), w) {
      assert RunningOk(timing, c, w);
    }
  }

  lemma NewScanOk(timing: Timing, c: Cluster)
    requires TimingOk(timing) && Inv(timing, c)
    ensures ScanOk(timing, c, Scan(c.now, Live(c), Live(c)))
  {
    forall w | w in c.running ensures w in Live(c) {
      RunningIsLive(timing, c, w);
    }
  }

  lemma TickKeepsInv(timing: Timing, elapsed: real, c: Cluster)
    requires TimingOk(timing) && Inv(timing, c) && MayElapse(timing, c, elapsed)
    ensures Inv(timing, Followed(c.(now := c.now + elapsed)))
  {
    var d := c.(now := c.now + elapsed);
    forall w | w in d.running ensures RunningOk(timing, d, w) {
      assert RunningOk(timing, c, w);
    }
    FollowedKeepsInv(timing, c, d);
  }

  lemma KeySetKeepsInv(timing: Timing, c: Cluster, w: string, since: real)
    requires TimingOk(timing) && Inv(timing, c)
    requires if w in c.running then since == c.running[w].since else since == c.now
    ensures Inv(timing, Followed(KeySet(c, w, since)))
  {
    var d := KeySet(c, w, since);
    forall v | v in d.running ensures RunningOk(timing, d, v) {
      if v in c.running { assert RunningOk(timing, c, v); }
    }
    FollowedKeepsInv(timing, c, d);
  }

  lemma KeyDeletedKeepsInv(timing: Timing, c: Cluster, w: string)
    requires TimingOk(timing) && Inv(timing, c)
    ensures Inv(timing, Followed(KeyDeleted(c, w)))
  {
    var d := KeyDeleted(c, w);
    forall v | v in d.running ensures RunningOk(timing, d, v) {
      assert RunningOk(timing, c, v);
    }
    FollowedKeepsInv(timing, c, d);
  }

  lemma {:induction false} RunKeepsInv(timing: Timing, events: seq<Event>, c: Cluster)
    requires TimingOk(timing) && Inv(timing, c) && Legal(timing, events, c)
    ensures Inv(timing, After(timing, events, c))
  {
    if events != [] {
      StepKeepsInv(timing, events[0], c);
      RunKeepsInv(timing, events[1..], Next(timing, events[0], c));
    }
  }

  // ----- The protocol's promises -----

  /** How long the ring may lag behind a change of the keys. */
  function Lag(timing: Timing): real {
    timing.restTime + 2.0 * timing.scanTime
  }

  /** Heartbeats that are late by less than the time to live allows keep a running worker's key
      from ever expiring. */
  lemma RunningKeysNeverExpire(timing: Timing, events: seq<Event>, worker: string)
    requires TimingOk(timing) && Legal(timing, events, Start())
    requires worker in After(timing, events, Start()).running
    ensures IsLive(After(timing, events, Start()), worker)
  {
    RunKeepsInv(timing, events, Start());
    RunningIsLive(timing, After(timing, events, Start()), worker);
  }

  /** At every moment: a worker that has been running for longer than the lag is in the ring, and one
      whose key has been gone for longer than the lag is not. */
  lemma RingFollowsKeys(timing: Timing, events: seq<Event>, worker: string)
    requires TimingOk(timing) && Legal(timing, events, Start())
    ensures var c := After(timing, events, Start());
            && (worker in c.running && c.now > c.running[worker].since + Lag(timing) ==> worker in c.ring)
            && (worker in c.expiry && c.now > c.expiry[worker] + Lag(timing) ==> worker !in c.ring)
            && (worker !in c.expiry ==> worker !in c.ring)
  {
    var c := After(timing, events, Start());
    RunKeepsInv(timing, events, Start());
    assert c.source >= c.now - Lag(timing);
  }

  /** Detection of a death: a worker whose last SET was at time `last` and that did not deregister
      is out of the ring once the time to live, the monitor's rest and two scans have passed. */
  lemma DeathIsDetected(timing: Timing, before: seq<Event>, after: seq<Event>, worker: string)
    requires TimingOk(timing) && Legal(timing, before, Start())
    requires worker in After(timing, before, Start()).running
    requires Legal(timing, [Crash(worker)] + after, After(timing, before, Start()))
    requires forall i :: 0 <= i < |after| ==> after[i] != Register(worker)
    ensures var last := After(timing, before, Start()).running[worker].beat;
            var c := After(timing, [Crash(worker)] + after, After(timing, before, Start()));
            c.now > last + HB_TTL_SECONDS + Lag(timing) ==> worker !in c.ring
  {
    var b := After(timing, before, Start());
    RunKeepsInv(timing, before, Start());
    assert RunningOk(timing, b, worker);
    var d := Next(timing, Crash(worker), b);
    assert ([Crash(worker)] + after)[1..] == after;
    StepKeepsInv(timing, Crash(worker), b);
    SilentStaysSilent(timing, after, d, worker);
    RunKeepsInv(timing, after, d);
    var c := After(timing, after, d);
    assert c.source >= c.now - Lag(timing);
  }

  lemma {:induction false} SilentStaysSilent(timing: Timing, events: seq<Event>, c: Cluster, worker: string)
    requires Legal(timing, events, c) && worker !in c.running && worker in c.expiry
    requires forall i :: 0 <= i < |events| ==> events[i] != Register(worker)
    ensures var d := After(timing, events, c);
            worker !in d.running && worker in d.expiry && d.expiry[worker] == c.expiry[worker]
  {
    if events != [] {
      assert events[0] != Register(worker);
      var next := Next(timing, events[0], c);
      assert worker !in next.running && worker in next.expiry && next.expiry[worker] == c.expiry[worker];
      SilentStaysSilent(timing, events[1..], next, worker);
    }
  }
}
