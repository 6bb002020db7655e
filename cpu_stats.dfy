/**
 * The anti-regression policy of the CPU collector's counter cache
 * (`updateCPUStats`) and the samples it is exposed as (`updateStat`),
 * stated as functions on values. The class in cpu_collector.dfy is proved
 * against these functions.
 */
module CpuStats {
  import opened Metrics

  /** One line of `/proc/stat`, in seconds. The values are only compared and copied. */
  datatype CpuStat = CpuStat(
    user: real, nice: real, system: real, idle: real, iowait: real,
    irq: real, softIrq: real, steal: real, guest: real, guestNice: real)

  /** `procfs.CPUStat{}`: the baseline of a fresh or reset entry. */
  const Zero := CpuStat(0.0, 0.0, 0.0, 0.0, 0.0, 0.0, 0.0, 0.0, 0.0, 0.0)

  /** Number of fields of a CpuStat, and of samples emitted per CPU. */
  const FieldCount := 10

  /** Index of `idle` in the field order. */
  const IdleField := 3

  /**
   * The fields in the order `updateStat` emits them:
   * user, nice, system, idle, iowait, irq, softirq, steal, guest, guestNice.
   */
  function Field(s: CpuStat, k: nat): real
    requires k < FieldCount
  {
    match k
    case 0 => s.user
    case 1 => s.nice
    case 2 => s.system
    case 3 => s.idle
    case 4 => s.iowait
    case 5 => s.irq
    case 6 => s.softIrq
    case 7 => s.steal
    case 8 => s.guest
    case 9 => s.guestNice
  }

  ghost predicate NonNegative(s: CpuStat)
  {
    forall k :: 0 <= k < FieldCount ==> Field(s, k) >= 0.0
  }

  ghost predicate AllNonNegative(ss: seq<CpuStat>)
  {
    forall i :: 0 <= i < |ss| ==> NonNegative(ss[i])
  }

  /** Every field of `a` except idle is at least the same field of `b`. */
  ghost predicate CountersAtLeast(a: CpuStat, b: CpuStat)
  {
    forall k :: 0 <= k < FieldCount && k != IdleField ==> Field(a, k) >= Field(b, k)
  }

  /** A counter moves forward only: the larger of the cached and the read value. */
  function Max(a: real, b: real): real
  {
    if a >= b then a else b
  }

  /**
   * One iteration of the loop of `updateCPUStats`: an idle counter that went
   * backwards resets the entry to zero, idle is always adopted, and every other
   * field only moves forward from the (possibly reset) entry.
   */
  function MergeStat(cached: CpuStat, n: CpuStat): CpuStat
  {
    var e := if n.idle < cached.idle then Zero else cached;
    CpuStat(
      Max(e.user, n.user), Max(e.nice, n.nice), Max(e.system, n.system),
      n.idle,
      Max(e.iowait, n.iowait), Max(e.irq, n.irq), Max(e.softIrq, n.softIrq),
      Max(e.steal, n.steal), Max(e.guest, n.guest), Max(e.guestNice, n.guestNice))
  }

  function Zeros(n: nat): (r: seq<CpuStat>)
    ensures |r| == n && forall i :: 0 <= i < n ==> r[i] == Zero
  {
    seq(n, _ => Zero)
  }

  /**
   * The whole of `updateCPUStats`: a cache whose length differs from the
   * reading is replaced by a zeroed one of the new length, then each entry is
   * merged with the reading at the same index.
   */
  function UpdatedCache(cache: seq<CpuStat>, newStats: seq<CpuStat>): (r: seq<CpuStat>)
    ensures |r| == |newStats|
    ensures forall i :: 0 <= i < |r| ==> r[i].idle == newStats[i].idle
  {
    var base := if |cache| != |newStats| then Zeros(|newStats|) else cache;
    seq(|newStats|, i requires 0 <= i < |newStats| => MergeStat(base[i], newStats[i]))
  }

  lemma FieldsDetermineStat(a: CpuStat, b: CpuStat)
    requires forall k :: 0 <= k < FieldCount ==> Field(a, k) == Field(b, k)
    ensures a == b
  {
    assert Field(a, 0) == Field(b, 0) && Field(a, 1) == Field(b, 1) && Field(a, 2) == Field(b, 2);
    assert Field(a, 3) == Field(b, 3) && Field(a, 4) == Field(b, 4) && Field(a, 5) == Field(b, 5);
    assert Field(a, 6) == Field(b, 6) && Field(a, 7) == Field(b, 7) && Field(a, 8) == Field(b, 8);
    assert Field(a, 9) == Field(b, 9);
  }

  /** Field by field, the merge is: idle adopted; otherwise Forward from the (possibly reset) entry. */
  lemma MergeStatField(cached: CpuStat, n: CpuStat, k: nat)
    requires k < FieldCount
    ensures k == IdleField ==> Field(MergeStat(cached, n), k) == Field(n, k)
    ensures k != IdleField && n.idle < cached.idle ==> Field(MergeStat(cached, n), k) == Max(0.0, Field(n, k))
    ensures k != IdleField && n.idle >= cached.idle ==> Field(MergeStat(cached, n), k) == Max(Field(cached, k), Field(n, k))
  {
  }

  /** An idle counter that went backwards makes the entry adopt a non-negative reading exactly. */
  lemma IdleResetAdoptsReading(cached: CpuStat, n: CpuStat)
    requires NonNegative(n)
    requires n.idle < cached.idle
    ensures MergeStat(cached, n) == n
  {
    forall k | 0 <= k < FieldCount ensures Field(MergeStat(cached, n), k) == Field(n, k) {
      MergeStatField(cached, n, k);
    }
    FieldsDetermineStat(MergeStat(cached, n), n);
  }

  /** Without an idle reset every other counter becomes the larger of the cached and the read value. */
  lemma NoResetTakesMax(cached: CpuStat, n: CpuStat)
    requires n.idle >= cached.idle
    ensures forall k :: 0 <= k < FieldCount && k != IdleField ==>
      Field(MergeStat(cached, n), k) == Max(Field(cached, k), Field(n, k))
    ensures MergeStat(cached, n).idle == n.idle
  {
    forall k | 0 <= k < FieldCount && k != IdleField
      ensures Field(MergeStat(cached, n), k) == Max(Field(cached, k), Field(n, k))
    {
      MergeStatField(cached, n, k);
    }
  }

  /** Without an idle reset no exposed counter decreases, idle included. */
  lemma NoResetNeverDecreases(cached: CpuStat, n: CpuStat)
    requires n.idle >= cached.idle
    ensures CountersAtLeast(MergeStat(cached, n), cached)
    ensures MergeStat(cached, n).idle >= cached.idle
  {
    NoResetTakesMax(cached, n);
  }

  /** Non-negative counters stay non-negative under non-negative readings. */
  lemma MergeKeepsNonNegative(cached: CpuStat, n: CpuStat)
    requires NonNegative(cached) && NonNegative(n)
    ensures NonNegative(MergeStat(cached, n))
  {
    forall k | 0 <= k < FieldCount ensures Field(MergeStat(cached, n), k) >= 0.0 {
      MergeStatField(cached, n, k);
    }
  }

  /** Every exposed value is one that was read or one that was cached, or the reset baseline 0. */
  lemma MergeInventsNothing(cached: CpuStat, n: CpuStat, k: nat)
    requires k < FieldCount
    ensures Field(MergeStat(cached, n), k) in {Field(n, k), Field(cached, k), 0.0}
  {
    MergeStatField(cached, n, k);
  }

  /** A change in the number of CPUs resets every entry, so non-negative readings are adopted exactly. */
  lemma ResizeAdoptsReadings(cache: seq<CpuStat>, newStats: seq<CpuStat>)
    requires |cache| != |newStats|
    requires AllNonNegative(newStats)
    ensures UpdatedCache(cache, newStats) == newStats
  {
    var r := UpdatedCache(cache, newStats);
    forall i | 0 <= i < |newStats| ensures r[i] == newStats[i] {
      if newStats[i].idle < Zero.idle {
        IdleResetAdoptsReading(Zero, newStats[i]);
      } else {
        forall k | 0 <= k < FieldCount ensures Field(r[i], k) == Field(newStats[i], k) {
          MergeStatField(Zero, newStats[i], k);
        }
        FieldsDetermineStat(r[i], newStats[i]);
      }
    }
  }

  /** With an unchanged CPU count, entry i is the merge of the cached and the read entry i. */
  lemma UpdatedCacheAt(cache: seq<CpuStat>, newStats: seq<CpuStat>, i: nat)
    requires |cache| == |newStats| && i < |newStats|
    ensures UpdatedCache(cache, newStats)[i] == MergeStat(cache[i], newStats[i])
  {
  }

  /**
   * Entry i of the result depends only on entry i of the cache and of the
   * reading: two updates that agree there agree on the result there.
   */
  lemma UpdatedCacheIsLocal(c1: seq<CpuStat>, n1: seq<CpuStat>, c2: seq<CpuStat>, n2: seq<CpuStat>, i: nat)
    requires |c1| == |n1| && |c2| == |n2| && i < |n1| && i < |n2|
    requires c1[i] == c2[i] && n1[i] == n2[i]
    ensures UpdatedCache(c1, n1)[i] == UpdatedCache(c2, n2)[i]
  {
  }

  /** The anti-regression law for one scrape, at one CPU index. */
  lemma AntiRegression(cache: seq<CpuStat>, newStats: seq<CpuStat>, i: nat)
    requires |cache| == |newStats| && i < |newStats|
    ensures newStats[i].idle >= cache[i].idle ==>
      CountersAtLeast(UpdatedCache(cache, newStats)[i], cache[i]) &&
      UpdatedCache(cache, newStats)[i].idle >= cache[i].idle
    ensures newStats[i].idle < cache[i].idle && NonNegative(newStats[i]) ==>
      UpdatedCache(cache, newStats)[i] == newStats[i]
  {
    if newStats[i].idle >= cache[i].idle {
      NoResetNeverDecreases(cache[i], newStats[i]);
    } else if NonNegative(newStats[i]) {
      IdleResetAdoptsReading(cache[i], newStats[i]);
    }
  }

  /** A non-negative cache and non-negative readings keep every exposed counter non-negative. */
  lemma UpdatedCacheKeepsNonNegative(cache: seq<CpuStat>, newStats: seq<CpuStat>)
    requires AllNonNegative(cache) && AllNonNegative(newStats)
    ensures AllNonNegative(UpdatedCache(cache, newStats))
  {
    var base := if |cache| != |newStats| then Zeros(|newStats|) else cache;
    assert forall k :: 0 <= k < FieldCount ==> Field(Zero, k) == 0.0;
    forall i | 0 <= i < |newStats| ensures NonNegative(UpdatedCache(cache, newStats)[i]) {
      MergeKeepsNonNegative(base[i], newStats[i]);
    }
  }

  /** Regression without reset: `{user:10, idle:50}` then `{user:8, idle:60}` exposes `{user:10, idle:60}`. */
  lemma ScenarioRegressionWithoutReset()
    ensures MergeStat(Zero.(user := 10.0, idle := 50.0), Zero.(user := 8.0, idle := 60.0))
         == Zero.(user := 10.0, idle := 60.0)
  {
  }

  /** Idle-triggered reset: `{user:10, idle:50}` then `{user:3, idle:40}` exposes `{user:3, idle:40}`. */
  lemma ScenarioIdleReset()
    ensures MergeStat(Zero.(user := 10.0, idle := 50.0), Zero.(user := 3.0, idle := 40.0))
         == Zero.(user := 3.0, idle := 40.0)
  {
  }

  // ---------------------------------------------------------------------------
  // Samples emitted by `updateStat` from the cache.

  /** `prometheus.BuildFQName("fil", "cpu", "info")`: the descriptor `c.cpu` that the eight modes are sent through. */
  const CpuFamily := "fil_cpu_info"

  /** `prometheus.BuildFQName("fil", "cpu", "guest_seconds_total")`. */
  const GuestFamily := "fil_cpu_guest_seconds_total"

  /** The ten sends of one iteration of the `updateStat` loop, in source order. */
  function CpuSamples(cpuId: nat, s: CpuStat): seq<Sample>
  {
    var num := Decimal(cpuId);
    [ Sample(CpuFamily, [num, "user"], s.user, Counter),
      Sample(CpuFamily, [num, "nice"], s.nice, Counter),
      Sample(CpuFamily, [num, "system"], s.system, Counter),
      Sample(CpuFamily, [num, "idle"], s.idle, Counter),
      Sample(CpuFamily, [num, "iowait"], s.iowait, Counter),
      Sample(CpuFamily, [num, "irq"], s.irq, Counter),
      Sample(CpuFamily, [num, "softirq"], s.softIrq, Counter),
      Sample(CpuFamily, [num, "steal"], s.steal, Counter),
      Sample(GuestFamily, [num, "user"], s.guest, Counter),
      Sample(GuestFamily, [num, "nice"], s.guestNice, Counter) ]
  }

  /** The samples for a whole cache, CPU by CPU. */
  function StatSamples(cache: seq<CpuStat>): seq<Sample>
  {
    if |cache| == 0 then []
    else StatSamples(cache[..|cache| - 1]) + CpuSamples(|cache| - 1, cache[|cache| - 1])
  }

  /** The mode label of the k-th sample of a CPU. */
  function ModeName(k: nat): string
    requires k < FieldCount
  {
    ["user", "nice", "system", "idle", "iowait", "irq", "softirq", "steal", "user", "nice"][k]
  }

  /** The family of the k-th sample of a CPU: the first eight are modes, the last two guest modes. */
  function ModeFamily(k: nat): string
  {
    if k < 8 then CpuFamily else GuestFamily
  }

  /** The k-th sample of CPU `cpuId`, from the field table rather than from the send list. */
  function ModeSample(cpuId: nat, k: nat, s: CpuStat): Sample
    requires k < FieldCount
  {
    Sample(ModeFamily(k), [Decimal(cpuId), ModeName(k)], Field(s, k), Counter)
  }

  lemma CpuSamplesAt(cpuId: nat, s: CpuStat, k: nat)
    requires k < FieldCount
    ensures |CpuSamples(cpuId, s)| == FieldCount
    ensures CpuSamples(cpuId, s)[k] == ModeSample(cpuId, k, s)
  {
  }

  /**
   * `updateStat` emits exactly ten counter samples per cached CPU, CPU after CPU:
   * sample 10*i + k is field k of entry i, labelled with the decimal index i
   * and the k-th mode name.
   */
  lemma {:induction false} StatSamplesShape(cache: seq<CpuStat>)
    ensures |StatSamples(cache)| == FieldCount * |cache|
    ensures forall i, k :: 0 <= i < |cache| && 0 <= k < FieldCount ==>
      StatSamples(cache)[FieldCount * i + k] == ModeSample(i, k, cache[i])
  {
    if |cache| > 0 {
      var front := cache[..|cache| - 1];
      var last := |cache| - 1;
      StatSamplesShape(front);
      forall i, k | 0 <= i < |cache| && 0 <= k < FieldCount
        ensures StatSamples(cache)[FieldCount * i + k] == ModeSample(i, k, cache[i])
      {
        if i < last {
          assert FieldCount * i + k < FieldCount * last;
          assert front[i] == cache[i];
        } else {
          CpuSamplesAt(last, cache[last], k);
        }
      }
    }
  }

  /** The ten samples of one CPU are ten different series. */
  lemma ModeSeriesDistinct(k: nat, l: nat)
    requires k < FieldCount && l < FieldCount && k != l
    ensures ModeFamily(k) != ModeFamily(l) || ModeName(k) != ModeName(l)
  {
  }

  /** No two samples of one scrape share a family and a label set. */
  lemma StatSamplesDistinctSeries(cache: seq<CpuStat>, x: nat, y: nat)
    requires x < y < |StatSamples(cache)|
    ensures StatSamples(cache)[x].family != StatSamples(cache)[y].family
         || StatSamples(cache)[x].labels != StatSamples(cache)[y].labels
  {
    StatSamplesShape(cache);
    var i, k := x / FieldCount, x % FieldCount;
    var j, l := y / FieldCount, y % FieldCount;
    assert x == FieldCount * i + k && y == FieldCount * j + l;
    assert i < |cache| && j < |cache|;
    var sx, sy := StatSamples(cache)[x], StatSamples(cache)[y];
    assert sx == ModeSample(i, k, cache[i]) && sy == ModeSample(j, l, cache[j]);
    if i == j {
      ModeSeriesDistinct(k, l);
    } else {
      DecimalInjective(i, j);
      assert sx.labels[0] != sy.labels[0];
    }
  }
}
