/** Where request bodies are kept and how that is counted: choosing memory or disk,
    limiting the size, and the global usage counters. */
module BodyCache {

  /** Fixed settings, in bytes. */
  datatype Config = Config(enabled: bool, threshold: int, maxBytes: int)

  datatype Stats = Stats(diskFiles: int, diskUsage: int, memoryBuffers: int, memoryUsage: int,
                         diskHits: int, memoryHits: int)

  datatype Stored = Stored(disk: bool, size: nat, closed: bool)

  datatype Created = Accepted(stored: Stored) | TooLarge | Failed

  predicate DiskAvailable(cfg: Config, stats: Stats, size: int) {
    cfg.enabled && stats.diskUsage + size <= cfg.maxBytes
  }

  function Opened(stats: Stats, s: Stored): Stats {
    if s.disk then stats.(diskFiles := stats.diskFiles + 1, diskUsage := stats.diskUsage + s.size)
    else stats.(memoryBuffers := stats.memoryBuffers + 1, memoryUsage := stats.memoryUsage + s.size)
  }

  function Floor0(n: int): int { if n < 0 then 0 else n }

  /** Disk counters never go below zero; memory counters are not guarded. */
  function Released(stats: Stats, s: Stored): Stats {
    if s.disk then stats.(diskFiles := Floor0(stats.diskFiles - 1), diskUsage := Floor0(stats.diskUsage - s.size))
    else stats.(memoryBuffers := stats.memoryBuffers - 1, memoryUsage := stats.memoryUsage - s.size)
  }

  function Hit(stats: Stats, disk: bool): Stats {
    if disk then stats.(diskHits := stats.diskHits + 1) else stats.(memoryHits := stats.memoryHits + 1)
  }

  /** Whether a body of known size goes to disk; a failing disk falls back to memory. */
  function Choose(cfg: Config, stats: Stats, size: nat, diskOk: bool): Stored {
    Stored(cfg.enabled && size >= cfg.threshold && DiskAvailable(cfg, stats, size) && diskOk, size, false)
  }

  predicate StreamsToDisk(cfg: Config, stats: Stats, declared: int) {
    cfg.enabled && declared > 0 && declared >= cfg.threshold && DiskAvailable(cfg, stats, declared)
  }

  /** How much of a body of `length` bytes is read under a limit of `limit`. */
  function Limited(length: nat, limit: int): nat {
    if limit + 1 <= 0 then 0 else if length < limit + 1 then length else limit + 1
  }

  function FromReader(cfg: Config, stats: Stats, length: nat, declared: int, limit: int, diskOk: bool): Created {
    var read := Limited(length, limit);
    if StreamsToDisk(cfg, stats, declared) then
      if !diskOk then Failed else if read > limit then TooLarge else Accepted(Stored(true, read, false))
    else if read > limit then TooLarge
    else Accepted(Choose(cfg, stats, read, diskOk))
  }

  class CacheStats {
    var diskFiles: int
    var diskUsage: int
    var memoryBuffers: int
    var memoryUsage: int
    var diskHits: int
    var memoryHits: int

    constructor ()
      ensures View() == Stats(0, 0, 0, 0, 0, 0)
    {
      diskFiles, diskUsage, memoryBuffers, memoryUsage, diskHits, memoryHits := 0, 0, 0, 0, 0, 0;
    }

    function View(): Stats
      reads this
    {
      Stats(diskFiles, diskUsage, memoryBuffers, memoryUsage, diskHits, memoryHits)
    }

    method Increment(s: Stored)
      modifies this
      ensures View() == Opened(old(View()), s)
    {
      if s.disk {
        diskFiles := diskFiles + 1;
        diskUsage := diskUsage + s.size;
      } else {
        memoryBuffers := memoryBuffers + 1;
        memoryUsage := memoryUsage + s.size;
      }
    }

    method Decrement(s: Stored)
      modifies this
      ensures View() == Released(old(View()), s)
    {
      if s.disk {
        diskFiles := diskFiles - 1;
        if diskFiles < 0 {
          diskFiles := 0;
        }
        diskUsage := diskUsage - s.size;
        if diskUsage < 0 {
          diskUsage := 0;
        }
      } else {
        memoryBuffers := memoryBuffers - 1;
        memoryUsage := memoryUsage - s.size;
      }
    }

    method CreateBodyStorage(cfg: Config, size: nat, diskOk: bool) returns (s: Stored)
      modifies this
      ensures s == Choose(cfg, old(View()), size, diskOk)
      ensures View() == Opened(old(View()), s)
    {
      if cfg.enabled && size >= cfg.threshold && diskUsage + size <= cfg.maxBytes {
        if diskOk {
          s := Stored(true, size, false);
          Increment(s);
          return;
        }
      }
      s := Stored(false, size, false);
      Increment(s);
    }

    method CreateFromReader(cfg: Config, length: nat, declared: int, limit: int, diskOk: bool) returns (r: Created)
      modifies this
      ensures r == FromReader(cfg, old(View()), length, declared, limit, diskOk)
      ensures View() == if r.Accepted? then Hit(Opened(old(View()), r.stored), r.stored.disk) else old(View())
    {
      if cfg.enabled && declared > 0 && declared >= cfg.threshold && diskUsage + declared <= cfg.maxBytes {
        var written := Limited(length, limit);
        if !diskOk {
          return Failed;
        }
        if written > limit {
          return TooLarge;
        }
        var s := Stored(true, written, false);
        Increment(s);
        diskHits := diskHits + 1;
        return Accepted(s);
      }
      var read := Limited(length, limit);
      if read > limit {
        return TooLarge;
      }
      var s := CreateBodyStorage(cfg, read, diskOk);
      if !s.disk {
        memoryHits := memoryHits + 1;
      } else {
        diskHits := diskHits + 1;
      }
      return Accepted(s);
    }

    /** Closing counts once, however often it is called. */
    method Close(s: Stored) returns (s': Stored)
      modifies this
      ensures s' == s.(closed := true)
      ensures View() == if s.closed then old(View()) else Released(old(View()), s)
    {
      if !s.closed {
        Decrement(s);
      }
      s' := s.(closed := true);
    }
  }

  // ---- A reader is accepted exactly when it fits ----

  /** A body is accepted, whole, exactly when it fits the limit, whatever was declared, and
      it is not being streamed to a disk that fails. */
  lemma AcceptedIffFits(cfg: Config, stats: Stats, length: nat, declared: int, limit: int, diskOk: bool)
    ensures
      var r, diskFails := FromReader(cfg, stats, length, declared, limit, diskOk),
                          !diskOk && StreamsToDisk(cfg, stats, declared);
      && (r.Accepted? <==> length <= limit && !diskFails)
      && (r.TooLarge? <==> length > limit && !diskFails)
      && (r.Failed? <==> diskFails)
      && (r.Accepted? ==> r.stored.size == length && !r.stored.closed)
  {
  }

  // ---- The counters over whole runs ----

  datatype Op =
    | Create(size: nat, diskOk: bool)
    | CreateStreamed(length: nat, declared: int, limit: int, diskOk: bool)
    | Close(index: nat)

  datatype World = World(stats: Stats, storages: seq<Stored>)

  function AddStorage(w: World, s: Stored): World {
    World(Opened(w.stats, s), w.storages + [s])
  }

  function CloseStorage(w: World, i: nat): World {
    if i >= |w.storages| then w
    else
      var s := w.storages[i];
      World(if s.closed then w.stats else Released(w.stats, s), w.storages[i := s.(closed := true)])
  }

  function CountHit(w: World, disk: bool): World {
    w.(stats := Hit(w.stats, disk))
  }

  function Apply(cfg: Config, w: World, op: Op): World {
    match op
    case Create(size, diskOk) => AddStorage(w, Choose(cfg, w.stats, size, diskOk))
    case CreateStreamed(length, declared, limit, diskOk) =>
      var r := FromReader(cfg, w.stats, length, declared, limit, diskOk);
      if r.Accepted? then CountHit(AddStorage(w, r.stored), r.stored.disk) else w
    case Close(i) => CloseStorage(w, i)
  }

  function Run(cfg: Config, ops: seq<Op>): World {
    if ops == [] then World(Stats(0, 0, 0, 0, 0, 0), [])
    else Apply(cfg, Run(cfg, ops[..|ops| - 1]), ops[|ops| - 1])
  }

  function Count(storages: seq<Stored>, disk: bool): nat {
    if storages == [] then 0
    else
      var last := storages[|storages| - 1];
      Count(storages[..|storages| - 1], disk) + if !last.closed && last.disk == disk then 1 else 0
  }

  function Usage(storages: seq<Stored>, disk: bool): nat {
    if storages == [] then 0
    else
      var last := storages[|storages| - 1];
      Usage(storages[..|storages| - 1], disk) + if !last.closed && last.disk == disk then last.size else 0
  }

  ghost predicate Accurate(w: World) {
    && w.stats.diskFiles == Count(w.storages, true)
    && w.stats.diskUsage == Usage(w.storages, true)
    && w.stats.memoryBuffers == Count(w.storages, false)
    && w.stats.memoryUsage == Usage(w.storages, false)
  }

  lemma {:induction false} CloseOne(storages: seq<Stored>, i: nat, disk: bool)
    requires i < |storages|
    ensures
      var s := storages[i];
      var counted := !s.closed && s.disk == disk;
      && Count(storages[i := s.(closed := true)], disk) == Count(storages, disk) - (if counted then 1 else 0)
      && Usage(storages[i := s.(closed := true)], disk) == Usage(storages, disk) - (if counted then s.size else 0)
  {
    var n, s := |storages| - 1, storages[i];
    var after := storages[i := s.(closed := true)];
    if i < n {
      assert after[..n] == storages[..n][i := s.(closed := true)];
      CloseOne(storages[..n], i, disk);
    } else {
      assert after[..n] == storages[..n];
    }
  }

  lemma OpenOne(storages: seq<Stored>, s: Stored, disk: bool)
    requires !s.closed
    ensures Count(storages + [s], disk) == Count(storages, disk) + if s.disk == disk then 1 else 0
    ensures Usage(storages + [s], disk) == Usage(storages, disk) + if s.disk == disk then s.size else 0
  {
    assert (storages + [s])[..|storages|] == storages;
  }

  lemma AddAccurate(w: World, s: Stored)
    requires Accurate(w) && !s.closed
    ensures Accurate(AddStorage(w, s))
  {
    OpenOne(w.storages, s, true);
    OpenOne(w.storages, s, false);
  }

  lemma CloseAccurate(w: World, i: nat)
    requires Accurate(w)
    ensures Accurate(CloseStorage(w, i))
  {
    if i < |w.storages| {
      CloseOne(w.storages, i, true);
      CloseOne(w.storages, i, false);
    }
  }

  lemma ApplyAccurate(cfg: Config, w: World, op: Op)
    requires Accurate(w)
    ensures Accurate(Apply(cfg, w, op))
  {
    match op
    case Create(size, diskOk) =>
      AddAccurate(w, Choose(cfg, w.stats, size, diskOk));
    case CreateStreamed(length, declared, limit, diskOk) =>
      var r := FromReader(cfg, w.stats, length, declared, limit, diskOk);
      if r.Accepted? {
        AddAccurate(w, r.stored);
      }
    case Close(i) =>
      CloseAccurate(w, i);
  }

  /** Over any run of creations and (repeated) closings, the counters are exactly the number
      and the total size of the open storages of each kind. */
  lemma {:induction false} CountersAreExact(cfg: Config, ops: seq<Op>)
    ensures Accurate(Run(cfg, ops))
  {
    if ops != [] {
      var init, last := ops[..|ops| - 1], ops[|ops| - 1];
      CountersAreExact(cfg, init);
      ApplyAccurate(cfg, Run(cfg, init), last);
    }
  }

  // ---- When disk usage stays within its maximum ----

  /** A streamed body goes to disk on the strength of its declared length, is accepted, and
      its actual length does not fit. */
  predicate Overruns(cfg: Config, w: World, op: Op) {
    && op.CreateStreamed? && StreamsToDisk(cfg, w.stats, op.declared) && op.diskOk
    && op.length <= op.limit && w.stats.diskUsage + op.length > cfg.maxBytes
  }

  /** One operation takes the usage above the maximum exactly when it overruns it. */
  lemma StepBoundedIff(cfg: Config, w: World, op: Op)
    requires 0 <= w.stats.diskUsage <= cfg.maxBytes
    ensures Apply(cfg, w, op).stats.diskUsage <= cfg.maxBytes <==> !Overruns(cfg, w, op)
  {
  }

  /** At the start and after every operation, usage is within the maximum. */
  ghost predicate AlwaysBounded(cfg: Config, ops: seq<Op>) {
    forall k :: 0 <= k <= |ops| ==> Run(cfg, ops[..k]).stats.diskUsage <= cfg.maxBytes
  }

  ghost predicate NeverOverruns(cfg: Config, ops: seq<Op>) {
    forall k :: 0 <= k < |ops| ==> !Overruns(cfg, Run(cfg, ops[..k]), ops[k])
  }

  lemma NextWithin(cfg: Config, ops: seq<Op>, k: nat)
    requires k < |ops| && Run(cfg, ops[..k]).stats.diskUsage <= cfg.maxBytes
    ensures Run(cfg, ops[..k + 1]).stats.diskUsage <= cfg.maxBytes <==> !Overruns(cfg, Run(cfg, ops[..k]), ops[k])
  {
    assert ops[..k + 1][..k] == ops[..k];
    CountersAreExact(cfg, ops[..k]);
    StepBoundedIff(cfg, Run(cfg, ops[..k]), ops[k]);
  }

  lemma {:induction false} WithinUpTo(cfg: Config, ops: seq<Op>, k: nat)
    requires k <= |ops| && cfg.maxBytes >= 0 && NeverOverruns(cfg, ops)
    ensures Run(cfg, ops[..k]).stats.diskUsage <= cfg.maxBytes
  {
    if k > 0 {
      WithinUpTo(cfg, ops, k - 1);
      NextWithin(cfg, ops, k - 1);
    }
  }

  /** Over every run: usage is never above the maximum exactly when no streamed body that
      went to disk by its declared length exceeds, by its actual one, the room left. */
  lemma BoundedIff(cfg: Config, ops: seq<Op>)
    requires cfg.maxBytes >= 0
    ensures AlwaysBounded(cfg, ops) <==> NeverOverruns(cfg, ops)
  {
    if AlwaysBounded(cfg, ops) {
      forall k | 0 <= k < |ops|
        ensures !Overruns(cfg, Run(cfg, ops[..k]), ops[k])
      {
        NextWithin(cfg, ops, k);
      }
    }
    if NeverOverruns(cfg, ops) {
      forall k | 0 <= k <= |ops|
        ensures Run(cfg, ops[..k]).stats.diskUsage <= cfg.maxBytes
      {
        WithinUpTo(cfg, ops, k);
      }
    }
  }

  /** No streamed body is longer than the length it declares, if it declares one. */
  ghost predicate HonestLengths(ops: seq<Op>) {
    forall i :: 0 <= i < |ops| && ops[i].CreateStreamed? && ops[i].declared > 0 ==> ops[i].length <= ops[i].declared
  }

  /** In particular, honest lengths never overrun. */
  lemma DiskUsageBounded(cfg: Config, ops: seq<Op>)
    requires HonestLengths(ops) && cfg.maxBytes >= 0
    ensures 0 <= Run(cfg, ops).stats.diskUsage <= cfg.maxBytes
  {
    assert NeverOverruns(cfg, ops);
    BoundedIff(cfg, ops);
    assert ops[..|ops|] == ops;
    CountersAreExact(cfg, ops);
  }

  /** Only the declared length is held against the maximum, so one understated body can
      take the usage above it. */
  lemma UnderstatedLengthOverruns(cfg: Config, length: nat)
    requires cfg.enabled && cfg.threshold <= 1 && 1 <= cfg.maxBytes < length
    ensures Run(cfg, [CreateStreamed(length, 1, length, true)]).stats.diskUsage > cfg.maxBytes
  {
    assert [CreateStreamed(length, 1, length, true)][..0] == [];
  }
}
