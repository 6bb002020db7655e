/**
 * The CPU collector object (`cpuCollector`): its per-CPU counter cache and
 * the three steps of its `Update`. Kernel reads are inputs: the `/proc/stat`
 * read is a Result, the cpu directories found by the sysfs glob a Result of
 * per-CPU reads.
 */
module CpuCollector {
  import opened Wrappers
  import opened Metrics
  import opened CpuStats
  import opened CpuThrottle

  class CpuCollector {
    /** `c.cpuStats`: the last exposed counters, one entry per CPU. */
    var cpuStats: array<CpuStat>

    /** `NewCPUCollector`: the cache starts as an empty slice. */
    constructor ()
      ensures cpuStats.Length == 0
    {
      cpuStats := new CpuStat[0];
    }

    /** `updateCPUStats`: applies the anti-regression policy to the cache, in place. */
    method UpdateCPUStats(newStats: seq<CpuStat>)
      modifies this, cpuStats
      ensures cpuStats[..] == UpdatedCache(old(cpuStats[..]), newStats)
    {
      ghost var cache := cpuStats[..];
      if cpuStats.Length != |newStats| {
        cpuStats := new CpuStat[|newStats|](_ => Zero);
        assert cpuStats[..] == Zeros(|newStats|);
      }
      var a := cpuStats;
      ghost var base := a[..];
      assert base == if |cache| != |newStats| then Zeros(|newStats|) else cache;
      for i := 0 to |newStats|
        invariant cpuStats == a && a.Length == |newStats|
        invariant forall k :: 0 <= k < i ==> a[k] == MergeStat(base[k], newStats[k])
        invariant forall k :: i <= k < |newStats| ==> a[k] == base[k]
      {
        var e := MergeEntry(a[i], newStats[i]);
        a[i] := e;
      }
      assert a[..] == UpdatedCache(cache, newStats);
    }

    /**
     * `updateStat`: a failed `/proc/stat` read returns its error before the
     * cache is touched; otherwise the cache is updated and ten samples per CPU
     * are emitted from it.
     */
    method UpdateStat(stat: Result<seq<CpuStat>>) returns (out: seq<Sample>, err: Option<string>)
      modifies this, cpuStats
      ensures stat.Err? ==>
        err == Some(stat.error) && out == [] && cpuStats == old(cpuStats) && cpuStats[..] == old(cpuStats[..])
      ensures stat.Ok? ==>
        err == None && cpuStats[..] == UpdatedCache(old(cpuStats[..]), stat.value) && out == StatSamples(cpuStats[..])
    {
      if stat.Err? {
        return [], Some(stat.error);
      }
      UpdateCPUStats(stat.value);
      out, err := [], None;
      for cpuId := 0 to cpuStats.Length
        invariant out == StatSamples(cpuStats[..cpuId])
      {
        assert cpuStats[..cpuId + 1][..cpuId] == cpuStats[..cpuId];
        out := out + CpuSamples(cpuId, cpuStats[cpuId]);
      }
      assert cpuStats[..cpuStats.Length] == cpuStats[..];
    }

    /**
     * `updateThermalThrottle`: a glob failure is returned as it is; otherwise the
     * two maps are built over the cpu directories in glob order and every
     * package entry, then every (package, core) entry, is emitted once, in map
     * iteration order.
     */
    method UpdateThermalThrottle(glob: Result<seq<CpuDir>>) returns (out: seq<Sample>, err: Option<string>)
      ensures glob.Err? ==> err == Some(glob.error) && out == []
      ensures glob.Ok? ==> err == None && ThrottleOutput(out, Fold(glob.value))
    {
      if glob.Err? {
        return [], Some(glob.error);
      }
      var packageThrottles, packageCoreThrottles := BuildThrottleMaps(glob.value);
      var packageOut := EmitPackageThrottles(packageThrottles);
      var coreOut := EmitCoreThrottles(packageCoreThrottles);
      out, err := packageOut + coreOut, None;
      assert out[..|packageThrottles|] == packageOut && out[|packageThrottles|..] == coreOut;
    }

    /**
     * `Update`: the optional info step, then `updateStat`, then
     * `updateThermalThrottle`; the first error stops the sequence, and the
     * samples already sent stay sent. `info` stands for what `updateInfo`
     * emits or fails with.
     */
    method Update(enableCpuInfo: bool, info: Result<seq<Sample>>, stat: Result<seq<CpuStat>>,
                  glob: Result<seq<CpuDir>>)
      returns (out: seq<Sample>, err: Option<string>)
      modifies this, cpuStats
      ensures enableCpuInfo && info.Err? ==>
        err == Some(info.error) && out == [] && cpuStats == old(cpuStats) && cpuStats[..] == old(cpuStats[..])
      ensures InfoStepPassed(enableCpuInfo, info) && stat.Err? ==>
        err == Some(stat.error) && out == InfoOut(enableCpuInfo, info) && cpuStats[..] == old(cpuStats[..])
      ensures InfoStepPassed(enableCpuInfo, info) && stat.Ok? ==>
        cpuStats[..] == UpdatedCache(old(cpuStats[..]), stat.value)
      ensures InfoStepPassed(enableCpuInfo, info) && stat.Ok? && glob.Err? ==>
        err == Some(glob.error) && out == InfoOut(enableCpuInfo, info) + StatSamples(cpuStats[..])
      ensures InfoStepPassed(enableCpuInfo, info) && stat.Ok? && glob.Ok? ==>
        var before := InfoOut(enableCpuInfo, info) + StatSamples(cpuStats[..]);
        err == None && |before| <= |out| && out[..|before|] == before &&
        ThrottleOutput(out[|before|..], Fold(glob.value))
    {
      out := [];
      if enableCpuInfo {
        if info.Err? {
          return [], Some(info.error);
        }
        out := info.value;
      }
      var statOut, statErr := UpdateStat(stat);
      out := out + statOut;
      if statErr.Some? {
        return out, statErr;
      }
      ghost var before := out;
      var throttleOut, throttleErr := UpdateThermalThrottle(glob);
      out := out + throttleOut;
      assert out[..|before|] == before && out[|before|..] == throttleOut;
      err := throttleErr;
    }
  }

  /** The info step of `Update` does not stop it: disabled, or enabled and successful. */
  predicate InfoStepPassed(enableCpuInfo: bool, info: Result<seq<Sample>>)
  {
    !enableCpuInfo || info.Ok?
  }

  /** What the info step sends when it does not stop `Update`. */
  function InfoOut(enableCpuInfo: bool, info: Result<seq<Sample>>): seq<Sample>
  {
    if enableCpuInfo && info.Ok? then info.value else []
  }

  /**
   * The body of the `updateCPUStats` loop for one CPU: reset on an idle
   * counter that went backwards, adopt idle, let every other field move forward only.
   */
  method MergeEntry(cached: CpuStat, n: CpuStat) returns (e: CpuStat)
    ensures e == MergeStat(cached, n)
  {
    var entry := cached;
    if n.idle < entry.idle {
      // a hot-plug event: the entry restarts from zero
      entry := Zero;
    }
    var user := Advance(entry.user, n.user);
    var nice := Advance(entry.nice, n.nice);
    var system := Advance(entry.system, n.system);
    var iowait := Advance(entry.iowait, n.iowait);
    var irq := Advance(entry.irq, n.irq);
    var softIrq := Advance(entry.softIrq, n.softIrq);
    var steal := Advance(entry.steal, n.steal);
    var guest := Advance(entry.guest, n.guest);
    var guestNice := Advance(entry.guestNice, n.guestNice);
    e := CpuStat(user, nice, system, n.idle, iowait, irq, softIrq, steal, guest, guestNice);
  }

  /**
   * One of the nine guarded field updates: the reading is adopted unless it
   * is below the cached value, which is then kept (the source logs a warning).
   */
  method Advance(cached: real, reading: real) returns (r: real)
    ensures r == Max(cached, reading)
  {
    r := cached;
    if reading >= r {
      r := reading;
    }
  }

  /** The cpu loop of `updateThermalThrottle`, filling the two maps in place. */
  method BuildThrottleMaps(cpus: seq<CpuDir>)
    returns (packageThrottles: map<u64, u64>, packageCoreThrottles: map<u64, map<u64, u64>>)
    ensures ThrottleMaps(packageThrottles, packageCoreThrottles) == Fold(cpus)
  {
    packageThrottles, packageCoreThrottles := map[], map[];
    for i := 0 to |cpus|
      invariant ThrottleMaps(packageThrottles, packageCoreThrottles) == Fold(cpus[..i])
    {
      assert cpus[..i + 1][..i] == cpus[..i];
      var cpu := cpus[i];
      if cpu.physicalPackageId.None? {
        continue;
      }
      var physicalPackageId := cpu.physicalPackageId.value;
      if cpu.coreId.None? {
        continue;
      }
      var coreId := cpu.coreId.value;
      if physicalPackageId !in packageCoreThrottles {
        packageCoreThrottles := packageCoreThrottles[physicalPackageId := map[]];
      }
      if coreId !in packageCoreThrottles[physicalPackageId] {
        // core_throttle_count is read only for a core not seen yet
        if cpu.coreThrottleCount.Some? {
          packageCoreThrottles := packageCoreThrottles[physicalPackageId :=
            packageCoreThrottles[physicalPackageId][coreId := cpu.coreThrottleCount.value]];
        }
      }
      if physicalPackageId !in packageThrottles {
        // package_throttle_count is read only for a package not seen yet
        if cpu.packageThrottleCount.Some? {
          packageThrottles := packageThrottles[physicalPackageId := cpu.packageThrottleCount.value];
        }
      }
    }
    assert cpus[..|cpus|] == cpus;
  }

  /** The first emission loop: one sample per entry of `packageThrottles`. */
  method EmitPackageThrottles(packageThrottles: map<u64, u64>) returns (out: seq<Sample>)
    ensures PackageEnumeration(out, packageThrottles)
  {
    var m := packageThrottles;
    out := [];
    var todo := m.Keys;
    ghost var done: set<u64> := {};
    while todo != {}
      invariant todo <= m.Keys
      invariant forall q :: q in done <==> q in m && q !in todo
      invariant |out| == |done|
      invariant Distinct(out)
      invariant forall q :: q in done ==> PackageSample(q, m[q]) in out
      invariant forall s :: s in out ==> exists q :: q in done && s == PackageSample(q, m[q])
      decreases todo
    {
      var p :| p in todo;
      var s := PackageSample(p, m[p]);
      assert p !in done;
      forall t | t in out ensures t != s {
        var q :| q in done && t == PackageSample(q, m[q]);
        PackageSampleInjective(p, q, m[p], m[q]);
      }
      DistinctAppend(out, s);
      out := out + [s];
      todo, done := todo - {p}, done + {p};
    }
    assert done == m.Keys;
  }

  /** The second emission loop: for every package, one sample per entry of its core map. */
  method EmitCoreThrottles(packageCoreThrottles: map<u64, map<u64, u64>>) returns (out: seq<Sample>)
    ensures CoreEnumeration(out, packageCoreThrottles)
  {
    var m := packageCoreThrottles;
    out := [];
    var packages := m.Keys;
    ghost var done: set<(u64, u64)> := {};
    while packages != {}
      invariant packages <= m.Keys
      invariant forall q, c :: (q, c) in done <==> q in m && q !in packages && c in m[q]
      invariant |out| == |done|
      invariant Distinct(out)
      invariant forall q, c :: (q, c) in done ==> CoreSample(q, c, m[q][c]) in out
      invariant forall s :: s in out ==> exists q, c :: (q, c) in done && s == CoreSample(q, c, m[q][c])
      decreases packages
    {
      var p :| p in packages;
      var cores := m[p].Keys;
      while cores != {}
        invariant cores <= m[p].Keys
        invariant forall q, c :: (q, c) in done <==>
          q in m && c in m[q] && (q !in packages || (q == p && c !in cores))
        invariant |out| == |done|
        invariant Distinct(out)
        invariant forall q, c :: (q, c) in done ==> CoreSample(q, c, m[q][c]) in out
        invariant forall s :: s in out ==> exists q, c :: (q, c) in done && s == CoreSample(q, c, m[q][c])
        decreases cores
      {
        var c :| c in cores;
        var s := CoreSample(p, c, m[p][c]);
        assert (p, c) !in done;
        forall t | t in out ensures t != s {
          var q, d :| (q, d) in done && t == CoreSample(q, d, m[q][d]);
          CoreSampleInjective(p, c, q, d, m[p][c], m[q][d]);
        }
        DistinctAppend(out, s);
        out := out + [s];
        cores, done := cores - {c}, done + {(p, c)};
      }
      packages := packages - {p};
    }
    forall k ensures k in done <==> k in CoreKeys(m) {
      var (q, c) := k;
      assert k in CoreKeys(m) <==> q in m && c in m[q];
    }
    assert done == CoreKeys(m);
  }

  lemma DistinctAppend(out: seq<Sample>, s: Sample)
    requires Distinct(out) && s !in out
    ensures Distinct(out + [s])
  {
  }
}
