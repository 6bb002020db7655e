/**
 * The thermal throttle part of the CPU collector (`updateThermalThrottle`),
 * stated as a left fold over the per-CPU sysfs directories in glob order.
 */
module CpuThrottle {
  import opened Wrappers
  import opened Metrics

  /**
   * What the four sysfs files of one `cpuN` directory read as: None where
   * `ReadUintFromFile` fails (missing file, or not a decimal uint64).
   */
  datatype CpuDir = CpuDir(
    physicalPackageId: Option<u64>,
    coreId: Option<u64>,
    coreThrottleCount: Option<u64>,
    packageThrottleCount: Option<u64>)

  /** `packageThrottles` and `packageCoreThrottles` of the source. */
  datatype ThrottleMaps = ThrottleMaps(packages: map<u64, u64>, cores: map<u64, map<u64, u64>>)

  const Empty := ThrottleMaps(map[], map[])

  /** A CPU with both topology ids; any other CPU is skipped. */
  predicate HasIds(d: CpuDir)
  {
    d.physicalPackageId.Some? && d.coreId.Some?
  }

  /** One iteration of the cpu loop. */
  function Step(m: ThrottleMaps, d: CpuDir): ThrottleMaps
  {
    if !HasIds(d) then m
    else
      var p, c := d.physicalPackageId.value, d.coreId.value;
      var cores := if p in m.cores then m.cores else m.cores[p := map[]];
      var cores' :=
        if c in cores[p] then cores
        else if d.coreThrottleCount.Some? then cores[p := cores[p][c := d.coreThrottleCount.value]]
        else cores;
      var packages' :=
        if p in m.packages then m.packages
        else if d.packageThrottleCount.Some? then m.packages[p := d.packageThrottleCount.value]
        else m.packages;
      ThrottleMaps(packages', cores')
  }

  /** The maps after the loop has seen the directories `ds`, in order. */
  function Fold(ds: seq<CpuDir>): ThrottleMaps
  {
    if |ds| == 0 then Empty else Step(Fold(ds[..|ds| - 1]), ds[|ds| - 1])
  }

  // Reference predicates: what CPU i contributes, independent of the fold.

  /** CPU i has both ids and its package id is p. */
  predicate InPackage(ds: seq<CpuDir>, i: nat, p: u64)
    requires i < |ds|
  {
    HasIds(ds[i]) && ds[i].physicalPackageId.value == p
  }

  /** CPU i has ids (p, c) and its core_throttle_count could be read. */
  predicate CoreReadAt(ds: seq<CpuDir>, i: nat, p: u64, c: u64)
    requires i < |ds|
  {
    InPackage(ds, i, p) && ds[i].coreId.value == c && ds[i].coreThrottleCount.Some?
  }

  /** CPU i has package id p and its package_throttle_count could be read. */
  predicate PackageReadAt(ds: seq<CpuDir>, i: nat, p: u64)
    requires i < |ds|
  {
    InPackage(ds, i, p) && ds[i].packageThrottleCount.Some?
  }

  /** A step never removes or overwrites an entry: a present key is not read again. */
  lemma StepExtends(m: ThrottleMaps, d: CpuDir)
    ensures forall p :: p in m.packages ==> p in Step(m, d).packages && Step(m, d).packages[p] == m.packages[p]
    ensures forall p :: p in m.cores ==> p in Step(m, d).cores
    ensures forall p, c :: p in m.cores && c in m.cores[p] ==>
      c in Step(m, d).cores[p] && Step(m, d).cores[p][c] == m.cores[p][c]
  {
  }

  /** Folding more directories keeps every entry the prefix created, with its value. */
  lemma {:induction false} FoldExtends(ds: seq<CpuDir>, more: seq<CpuDir>)
    ensures forall p :: p in Fold(ds).packages ==>
      p in Fold(ds + more).packages && Fold(ds + more).packages[p] == Fold(ds).packages[p]
    ensures forall p :: p in Fold(ds).cores ==> p in Fold(ds + more).cores
    ensures forall p, c :: p in Fold(ds).cores && c in Fold(ds).cores[p] ==>
      c in Fold(ds + more).cores[p] && Fold(ds + more).cores[p][c] == Fold(ds).cores[p][c]
  {
    if |more| == 0 {
      assert ds + more == ds;
    } else {
      var front := more[..|more| - 1];
      assert (ds + more)[..|ds + more| - 1] == ds + front;
      assert Fold(ds + more) == Step(Fold(ds + front), more[|more| - 1]);
      FoldExtends(ds, front);
      StepExtends(Fold(ds + front), more[|more| - 1]);
    }
  }

  /** A package's core map exists iff some CPU with both ids is in that package (possibly with no cores in it). */
  lemma {:induction false} CoreMapCreated(ds: seq<CpuDir>, p: u64)
    ensures p in Fold(ds).cores <==> exists i :: 0 <= i < |ds| && InPackage(ds, i, p)
  {
    if |ds| > 0 {
      var front := ds[..|ds| - 1];
      CoreMapCreated(front, p);
      if exists i :: 0 <= i < |front| && InPackage(front, i, p) {
        var i :| 0 <= i < |front| && InPackage(front, i, p);
        assert InPackage(ds, i, p);
      }
      if exists i :: 0 <= i < |ds| && InPackage(ds, i, p) {
        var i :| 0 <= i < |ds| && InPackage(ds, i, p);
        if i < |front| { assert InPackage(front, i, p); }
      }
      if InPackage(ds, |ds| - 1, p) {
        assert p in Fold(ds).cores;
      }
    }
  }

  /**
   * First read wins for packages: p has a package count iff some CPU of package p
   * had a readable package_throttle_count, and the count is that of the first such CPU.
   */
  lemma {:induction false} PackageFirstWins(ds: seq<CpuDir>, p: u64)
    ensures p in Fold(ds).packages <==> exists i :: 0 <= i < |ds| && PackageReadAt(ds, i, p)
    ensures p in Fold(ds).packages ==> exists i :: (0 <= i < |ds| && PackageReadAt(ds, i, p) &&
      (forall j :: 0 <= j < i ==> !PackageReadAt(ds, j, p)) &&
      Fold(ds).packages[p] == ds[i].packageThrottleCount.value)
  {
    if |ds| > 0 {
      var front, last := ds[..|ds| - 1], |ds| - 1;
      PackageFirstWins(front, p);
      assert forall j :: 0 <= j < last ==> (PackageReadAt(front, j, p) <==> PackageReadAt(ds, j, p));
      if p in Fold(front).packages {
        var i :| 0 <= i < |front| && PackageReadAt(front, i, p) &&
          (forall j :: 0 <= j < i ==> !PackageReadAt(front, j, p)) &&
          Fold(front).packages[p] == front[i].packageThrottleCount.value;
        assert PackageReadAt(ds, i, p);
      } else if PackageReadAt(ds, last, p) {
        assert Fold(ds).packages[p] == ds[last].packageThrottleCount.value;
      }
    }
  }

  /**
   * First read wins for cores: (p, c) has a core count iff some CPU with ids (p, c)
   * had a readable core_throttle_count, and the count is that of the first such CPU.
   */
  lemma {:induction false} CoreFirstWins(ds: seq<CpuDir>, p: u64, c: u64)
    ensures (p in Fold(ds).cores && c in Fold(ds).cores[p]) <==>
      exists i :: 0 <= i < |ds| && CoreReadAt(ds, i, p, c)
    ensures p in Fold(ds).cores && c in Fold(ds).cores[p] ==>
      exists i :: (0 <= i < |ds| && CoreReadAt(ds, i, p, c) &&
        (forall j :: 0 <= j < i ==> !CoreReadAt(ds, j, p, c)) &&
        Fold(ds).cores[p][c] == ds[i].coreThrottleCount.value)
  {
    if |ds| > 0 {
      var front, last := ds[..|ds| - 1], |ds| - 1;
      CoreFirstWins(front, p, c);
      assert forall j :: 0 <= j < last ==> (CoreReadAt(front, j, p, c) <==> CoreReadAt(ds, j, p, c));
      if p in Fold(front).cores && c in Fold(front).cores[p] {
        var i :| 0 <= i < |front| && CoreReadAt(front, i, p, c) &&
          (forall j :: 0 <= j < i ==> !CoreReadAt(front, j, p, c)) &&
          Fold(front).cores[p][c] == front[i].coreThrottleCount.value;
        assert CoreReadAt(ds, i, p, c);
      } else if CoreReadAt(ds, last, p, c) {
        assert Fold(ds).cores[p][c] == ds[last].coreThrottleCount.value;
      }
    }
  }

  // ---------------------------------------------------------------------------
  // Emission.

  /** `prometheus.BuildFQName("fil", "cpu", "package_throttles_total")`. */
  const PackageFamily := "fil_cpu_package_throttles_total"

  /** `prometheus.BuildFQName("fil", "cpu", "core_throttles_total")`. */
  const CoreFamily := "fil_cpu_core_throttles_total"

  function PackageSample(p: u64, count: u64): Sample
  {
    Sample(PackageFamily, [Decimal(p as nat)], count as real, Counter)
  }

  function CoreSample(p: u64, c: u64, count: u64): Sample
  {
    Sample(CoreFamily, [Decimal(p as nat), Decimal(c as nat)], count as real, Counter)
  }

  /** Every (package, core) pair that has a core count. */
  function CoreKeys(m: map<u64, map<u64, u64>>): set<(u64, u64)>
  {
    set p, c | p in m && c in m[p] :: (p, c)
  }

  ghost predicate Distinct(out: seq<Sample>)
  {
    forall a, b :: 0 <= a < b < |out| ==> out[a] != out[b]
  }

  /** `out` holds one sample per package entry and nothing else, in some order. */
  ghost predicate PackageEnumeration(out: seq<Sample>, m: map<u64, u64>)
  {
    && |out| == |m|
    && Distinct(out)
    && (forall p :: p in m ==> PackageSample(p, m[p]) in out)
    && (forall s :: s in out ==> exists p :: p in m && s == PackageSample(p, m[p]))
  }

  /** `out` holds one sample per (package, core) entry and nothing else, in some order. */
  ghost predicate CoreEnumeration(out: seq<Sample>, m: map<u64, map<u64, u64>>)
  {
    && |out| == |CoreKeys(m)|
    && Distinct(out)
    && (forall p, c :: p in m && c in m[p] ==> CoreSample(p, c, m[p][c]) in out)
    && (forall s :: s in out ==> exists p, c :: p in m && c in m[p] && s == CoreSample(p, c, m[p][c]))
  }

  /** What `updateThermalThrottle` emits: all package samples, then all core samples. */
  ghost predicate ThrottleOutput(out: seq<Sample>, m: ThrottleMaps)
  {
    && |m.packages| <= |out|
    && PackageEnumeration(out[..|m.packages|], m.packages)
    && CoreEnumeration(out[|m.packages|..], m.cores)
  }

  lemma PackageSampleInjective(p: u64, q: u64, x: u64, y: u64)
    requires p != q
    ensures PackageSample(p, x) != PackageSample(q, y)
  {
    DecimalInjective(p as nat, q as nat);
    assert PackageSample(p, x).labels[0] != PackageSample(q, y).labels[0];
  }

  lemma CoreSampleInjective(p: u64, c: u64, q: u64, d: u64, x: u64, y: u64)
    requires (p, c) != (q, d)
    ensures CoreSample(p, c, x) != CoreSample(q, d, y)
  {
    if p != q {
      DecimalInjective(p as nat, q as nat);
      assert CoreSample(p, c, x).labels[0] != CoreSample(q, d, y).labels[0];
    } else {
      DecimalInjective(c as nat, d as nat);
      assert CoreSample(p, c, x).labels[1] != CoreSample(q, d, y).labels[1];
    }
  }

  /**
   * The throttle aggregation scenario: two CPUs of package 0 with cores 0 and 1,
   * each reading 5 for both counts, give one package entry and two core entries.
   */
  lemma ScenarioTwoCores()
    ensures Fold([CpuDir(Some(0), Some(0), Some(5), Some(5)), CpuDir(Some(0), Some(1), Some(5), Some(5))])
         == ThrottleMaps(map[0 := 5], map[0 := map[0 := 5, 1 := 5]])
  {
    var ds := [CpuDir(Some(0), Some(0), Some(5), Some(5)), CpuDir(Some(0), Some(1), Some(5), Some(5))];
    assert ds[..1][..0] == [];
    assert Fold(ds[..1]) == ThrottleMaps(map[0 := 5], map[0 := map[0 := 5]]);
  }
}
