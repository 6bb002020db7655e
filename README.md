# fil_exporter core, modelled in Dafny

fil_exporter is a host-metrics agent in the style of the Prometheus node
exporter. Collectors turn kernel counters and GPU tool output into samples.
Every ten seconds a pusher process gathers the samples and POSTs them, in
text format, to a push gateway. This project models the decision logic of
that pipeline and proves properties of it:

- **CPU collector** (`collector/metric/cpu/cpu_linux.go`):
  - The anti-regression cache of `/proc/stat` counters, as a class
    whose `array` field is reallocated and updated in place.
  - The ten-samples-per-CPU emission order.
  - The thermal-throttle fold into a package map and a package→core map,
    where the first successful read of a key wins.
  - The order in which `Update` runs its steps.
- **GPU collector** (`collector/gpu_linux.go`): it maps the rows already
  split out of the GPU tool's CSV output to one device-count sample, plus
  one sample per parseable cell, labelled by row position and column name.
- **Path helpers** (`collector/path.go`): joining under the configured
  roots, and the textual root-prefix stripping with its `/` fallback.
- **Pusher** (`node_pusher.go`):
  - the first-match choice of a non-loopback IPv4 address;
  - the push URL and headers;
  - the 2xx classification and the outcome of one push tick;
  - the sorted listing of enabled collectors, done with an in-place
    insertion sort.

Modules:
- `Wrappers`: `Option` and `Result`.
- `Metrics`: samples, `u64` and decimal label text.
- `CpuStats`: the cache specification and the emission order.
- `CpuThrottle`: the fold specification and the emission enumeration.
- `CpuCollector`: the collector class and its loops.
- `Gpu`, `Paths` and `NodePusher`.

Inputs that come from the kernel, processes or the network are parameters:
- the `Stat()` result;
- the glob of CPU directories, with each directory's four sysfs values
  already read (`Option<u64>`, None when the read fails);
- the GPU tool/CSV outcome;
- the interface address list;
- the client's response.

Library internals the model does not reach into are oracles:
`strconv.ParseFloat`, `filepath.Join`, and the `IsLoopback`/`To4`/`String`
view of an IP.

Behaviour of the code worth knowing, which the model follows:
- When the number of CPUs changes, `make` reallocates the whole slice, so
  every entry, old index or new, restarts from zero (`cpu_linux.go:237-239`).
- When `clt.Do` fails with a nil response, `defer resp.Body.Close()`
  dereferences that nil response before the error is checked, so the
  process panics (`node_pusher.go:164-165`). `NodePusher.Tick` yields
  `Crashed` there. An error that comes with a non-nil response (a refused
  redirect) is logged and the tick is skipped (`node_pusher.go:166-168`).

## Model

| member | source | states |
|---|---|---|
| CpuStats.MergeStat | collector/metric/cpu/cpu_linux.go:243-301 | definition of the per-CPU merge; its properties are proved in MergeStatField, IdleResetAdoptsReading, NoResetTakesMax, NoResetNeverDecreases and MergeInventsNothing |
| CpuStats.CpuSamples | collector/metric/cpu/cpu_linux.go:212-224 | definition of one CPU's ten samples; its properties are proved in CpuSamplesAt |
| CpuStats.StatSamples | collector/metric/cpu/cpu_linux.go:211-225 | definition of the emission over the cache; its properties are proved in StatSamplesShape and StatSamplesDistinctSeries |
| CpuThrottle.Step | collector/metric/cpu/cpu_linux.go:106-152 | definition of one CPU directory's effect on the maps; its properties are proved in StepExtends |
| CpuThrottle.Fold | collector/metric/cpu/cpu_linux.go:106-152 | definition of the whole loop; its properties are proved in FoldExtends, CoreMapCreated, PackageFirstWins and CoreFirstWins |
| CpuThrottle.PackageSample | collector/metric/cpu/cpu_linux.go:154-159 | definition of a package sample; its properties are proved in PackageSampleInjective |
| CpuThrottle.CoreSample | collector/metric/cpu/cpu_linux.go:161-168 | definition of a core sample; its properties are proved in CoreSampleInjective |
| Gpu.CountSample | collector/gpu_linux.go:91-96 | definition of the device-count sample; its properties are proved in GpuSamplesStartWithCount |
| Gpu.InfoSample | collector/gpu_linux.go:64-66 | definition of a cell sample; its properties are stated by UpdateMetrics |
| Gpu.CellSamples | collector/gpu_linux.go:102-104 | definition of the cell loop; its properties are proved in CellSampleCount and CellSamplesExactly |
| Gpu.RowSamples | collector/gpu_linux.go:99-104 | definition of one row's samples; its properties are proved in RowSamplesExactly and RowSampleCount |
| Gpu.RecordSamples | collector/gpu_linux.go:99-105 | definition of the row loop; its properties are proved in RecordSamplesExactly |
| Gpu.GpuSamples | collector/gpu_linux.go:91-105 | definition of the whole emission; its properties are proved in GpuSamplesStartWithCount and RecordSamplesExactly |
| Paths.ProcFilePath | collector/path.go:16-18 | definition; its properties are stated in FilePathsUseOwnRoot |
| Paths.SysFilePath | collector/path.go:20-22 | definition; its properties are stated in FilePathsUseOwnRoot |
| Paths.RootfsFilePath | collector/path.go:24-26 | definition; its properties are stated in FilePathsUseOwnRoot |
| NodePusher.Qualifies | node_pusher.go:72-73 | definition of a usable address; its properties are proved in FirstLocalIP and FirstLocalIPPicksFirst |
| NodePusher.PushURL | node_pusher.go:150 | definition of the target; its properties are proved in PushURLRoundTrip, PushURLInjective and NoSlashNormalisation |
| NodePusher.PushHeaders | node_pusher.go:160-162 | definition of the headers; its properties are proved in PushHeadersExactly |
| NodePusher.IsSuccess | node_pusher.go:170 | definition of success; its properties are proved in SuccessIs2xx |
| NodePusher.LessEq | node_pusher.go:47 | definition of the sort order; its properties are proved in LessEqTotal, LessEqTransitive and LessEqAntisymmetric |
| CpuStats.UpdatedCache | collector/metric/cpu/cpu_linux.go:237-302 | the updated cache has one entry per new reading, and each entry's idle is the new reading's idle |
| CpuStats.MergeStatField | collector/metric/cpu/cpu_linux.go:243-301 | field by field: idle adopts the reading; after an idle regression the other fields are max(0, reading); otherwise max(cached, reading) |
| CpuStats.FieldsDetermineStat | collector/metric/cpu/cpu_linux.go:249-301 | the ten fields cover the whole record, so agreeing on all fields means equal records |
| CpuStats.IdleResetAdoptsReading | collector/metric/cpu/cpu_linux.go:243-246 | when idle goes backwards and the reading is non-negative, the entry becomes exactly the new reading |
| CpuStats.NoResetTakesMax | collector/metric/cpu/cpu_linux.go:249-301 | without an idle regression every non-idle field becomes max(old, new) and idle becomes the reading |
| CpuStats.NoResetNeverDecreases | collector/metric/cpu/cpu_linux.go:243-301 | without an idle regression no counter, idle included, moves backwards |
| CpuStats.MergeKeepsNonNegative | collector/metric/cpu/cpu_linux.go:243-301 | non-negative cache and reading give a non-negative entry |
| CpuStats.MergeInventsNothing | collector/metric/cpu/cpu_linux.go:243-301 | every merged field is the reading's, the cached one's or the reset zero |
| CpuStats.ResizeAdoptsReadings | collector/metric/cpu/cpu_linux.go:237-239 | a change in CPU count zeroes the cache, so with non-negative readings the result equals the readings |
| CpuStats.UpdatedCacheAt | collector/metric/cpu/cpu_linux.go:241-302 | at equal length, entry i is the merge of old entry i with reading i |
| CpuStats.UpdatedCacheIsLocal | collector/metric/cpu/cpu_linux.go:241-302 | entry i depends only on old entry i and reading i |
| CpuStats.AntiRegression | collector/metric/cpu/cpu_linux.go:243-301 | per entry: forward-only counters without a reset, the reading itself after a reset |
| CpuStats.UpdatedCacheKeepsNonNegative | collector/metric/cpu/cpu_linux.go:237-302 | the whole cache stays non-negative when the readings are |
| CpuStats.ScenarioRegressionWithoutReset | collector/metric/cpu/cpu_linux.go:249-253 | {user 10, idle 50} then {user 8, idle 60} gives {user 10, idle 60} |
| CpuStats.ScenarioIdleReset | collector/metric/cpu/cpu_linux.go:243-246 | {user 10, idle 50} then {user 3, idle 40} gives {user 3, idle 40} |
| CpuStats.CpuSamplesAt | collector/metric/cpu/cpu_linux.go:212-224 | one CPU yields exactly ten samples, sample k being mode k of the fixed order |
| CpuStats.StatSamplesShape | collector/metric/cpu/cpu_linux.go:211-225 | ten samples per cached CPU; sample 10·i+k is mode k of CPU i, labelled with decimal i |
| CpuStats.ModeSeriesDistinct | collector/metric/cpu/cpu_linux.go:213-224 | the ten modes differ in family or mode label |
| CpuStats.StatSamplesDistinctSeries | collector/metric/cpu/cpu_linux.go:211-225 | no two emitted samples share both family and labels |
| Metrics.Decimal | collector/metric/cpu/cpu_linux.go:212 | the CPU label is a non-empty digit string, one digit exactly below ten, without a leading zero |
| Metrics.DecimalRoundTrip | collector/metric/cpu/cpu_linux.go:212 | the decimal label parses back to the index |
| Metrics.DecimalInjective | collector/gpu_linux.go:100 | distinct indices get distinct labels |
| CpuThrottle.StepExtends | collector/metric/cpu/cpu_linux.go:131-151 | one CPU directory never removes or overwrites an entry of either map |
| CpuThrottle.FoldExtends | collector/metric/cpu/cpu_linux.go:106-152 | later CPUs never remove or overwrite entries of earlier ones |
| CpuThrottle.CoreMapCreated | collector/metric/cpu/cpu_linux.go:115-133 | a package has a (possibly empty) core map iff some CPU had both ids readable with that package |
| CpuThrottle.PackageFirstWins | collector/metric/cpu/cpu_linux.go:144-151 | a package count exists iff some CPU of it read one, and it equals the first such read |
| CpuThrottle.CoreFirstWins | collector/metric/cpu/cpu_linux.go:134-142 | a (package, core) count exists iff some CPU with those ids read one, and it equals the first such read |
| CpuThrottle.PackageSampleInjective | collector/metric/cpu/cpu_linux.go:154-159 | distinct packages give distinct package samples |
| CpuThrottle.CoreSampleInjective | collector/metric/cpu/cpu_linux.go:161-168 | distinct (package, core) pairs give distinct core samples |
| CpuThrottle.ScenarioTwoCores | collector/metric/cpu/cpu_linux.go:131-151 | two cores of one package give one package entry and two core entries |
| CpuCollector.CpuCollector.constructor | collector/metric/cpu/cpu_linux.go:52-76 | a new collector starts with an empty cache |
| CpuCollector.CpuCollector.UpdateCPUStats | collector/metric/cpu/cpu_linux.go:231-303 | the in-place loop leaves the cache equal to the specified update of the old cache |
| CpuCollector.CpuCollector.UpdateStat | collector/metric/cpu/cpu_linux.go:200-228 | a Stat failure returns its error with the cache untouched; otherwise the cache is updated and the samples are its ten-per-CPU enumeration |
| CpuCollector.CpuCollector.UpdateThermalThrottle | collector/metric/cpu/cpu_linux.go:96-171 | a glob error is returned; otherwise the output is the package samples then the core samples of the folded maps |
| CpuCollector.CpuCollector.Update | collector/metric/cpu/cpu_linux.go:80-93 | info, stat and throttle steps run in order; the first error stops the sequence, with the cache updated only once the stat step is reached |
| CpuCollector.MergeEntry | collector/metric/cpu/cpu_linux.go:243-301 | the field-by-field merge computes the specified merge |
| CpuCollector.Advance | collector/metric/cpu/cpu_linux.go:249-253 | one field advances to the reading only when that does not go backwards |
| CpuCollector.BuildThrottleMaps | collector/metric/cpu/cpu_linux.go:103-152 | the loop with its early continues builds exactly the folded maps |
| CpuCollector.EmitPackageThrottles | collector/metric/cpu/cpu_linux.go:154-159 | one distinct sample per package entry and nothing else, in any map order |
| CpuCollector.EmitCoreThrottles | collector/metric/cpu/cpu_linux.go:161-168 | one distinct sample per (package, core) entry and nothing else, in any map order |
| Gpu.UpdateMetrics | collector/gpu_linux.go:58-67 | a sample exists iff the cell parses, with labels [gpu, name], the parsed value, gauge kind |
| Gpu.CellSampleCount | collector/gpu_linux.go:102-104 | the number of samples of a row equals the number of parseable cells |
| Gpu.CellSamplesExactly | collector/gpu_linux.go:102-104 | a sample comes from a row iff it is some parseable cell's sample |
| Gpu.RowSamplesExactly | collector/gpu_linux.go:98-104 | cell j of a row (j ≥ 1) is labelled names[j-1] and the row position; cell 0 is never emitted |
| Gpu.RowSampleCount | collector/gpu_linux.go:102-104 | a row's sample count is the number of parseable cells after column 0 |
| Gpu.RecordSamplesExactly | collector/gpu_linux.go:99-105 | a sample appears iff some row's parseable cell yields it, labelled with that row's position |
| Gpu.GpuSamplesStartWithCount | collector/gpu_linux.go:91-96 | the first sample is the device-count counter equal to the number of records; all others are info samples |
| Gpu.Update | collector/gpu_linux.go:69-109 | disabled gives nothing; a tool or CSV failure returns the wrapped error with no samples; otherwise the samples are the count then the per-row cells |
| Gpu.EmitRecords | collector/gpu_linux.go:91-105 | the nested loops emit exactly the specified sequence |
| Paths.FilePathsUseOwnRoot | collector/path.go:16-26 | each helper joins its own configured root and depends on no other root |
| Paths.TrimPrefix | collector/path.go:32 | a present prefix is removed exactly; an absent one leaves the string unchanged |
| Paths.RootfsStripPrefix | collector/path.go:28-37 | root "/" returns the path; otherwise never empty, root+s gives s, the root itself gives "/", a path without the root is unchanged except "" gives "/" |
| Paths.StripThenJoinRoundTrip | collector/path.go:32-36 | stripping the root from root+rest gives back rest |
| Paths.DefaultRootKeepsPath | collector/path.go:13-31 | with the default rootfs "/", stripping returns every path unchanged |
| Paths.TextualPrefixMatch | collector/path.go:32 | root "/host" and path "/hostname" give "name" |
| NodePusher.FirstLocalIP | node_pusher.go:70-79 | an error iff no address qualifies, that error being "no interface found"; otherwise the IPv4 text of the first qualifying address |
| NodePusher.GetLocalIP | node_pusher.go:64-80 | a listing error is passed through; otherwise the first-match result |
| NodePusher.FirstLocalIPPicksFirst | node_pusher.go:70-77 | when address k is the first non-loopback IPv4 network, it is the one returned |
| NodePusher.PushURLRoundTrip | node_pusher.go:150 | the instance read back from the push URL is the address put in |
| NodePusher.PushURLInjective | node_pusher.go:150 | distinct addresses push to distinct URLs |
| NodePusher.NoSlashNormalisation | node_pusher.go:150 | a gateway ending in "/" yields a doubled slash |
| NodePusher.PushHeadersExactly | node_pusher.go:160-162 | exactly three headers: bearer auth, the user agent and the text content type; no other name has a value |
| NodePusher.SuccessIs2xx | node_pusher.go:170 | success is exactly status class 2 |
| NodePusher.Tick | node_pusher.go:124-179 | panics on gather and address errors and on a send error with a nil response; skips on request errors, on a send error with a response, and on body-read errors; delivers on 2xx; otherwise logs the body; the sent request carries the URL, headers and encoded batch |
| NodePusher.LessEqTotal | node_pusher.go:47 | the string order is total |
| NodePusher.LessEqTransitive | node_pusher.go:47 | the string order is transitive |
| NodePusher.LessEqAntisymmetric | node_pusher.go:47 | the string order is antisymmetric |
| NodePusher.SortedDistinctIsStrict | node_pusher.go:47 | a sorted listing of distinct names is strictly increasing |
| NodePusher.SwapStep | node_pusher.go:47 | one swap of the insertion pass keeps its invariant and the multiset |
| NodePusher.InsertedSorted | node_pusher.go:47 | once the pass stops, the prefix is sorted |
| NodePusher.SortStrings | node_pusher.go:47 | in place: the result is sorted and a permutation of the input |
| NodePusher.ListNames | node_pusher.go:42-45 | the append loop lists each collector name exactly once |
| NodePusher.EnabledCollectorNames | node_pusher.go:42-50 | the logged names are sorted, are exactly the enabled collectors, and none is repeated |
| NodePusher.Start | node_pusher.go:32-61 | a creation error is returned wrapped before any listing; otherwise the sorted names are logged and a registration error is returned wrapped |

## Left out

- Kernel, process and network I/O:
  - procfs `Stat`, sysfs globbing and file reads;
  - running the GPU tool;
  - `net.InterfaceAddrs`;
  - HTTP.

  Their results are parameters.
- The locks `cpuStatsMutex` and `gpuStatusMutex`, and the pusher goroutine: concurrency is not modelled.
- The 10-second timer and the interrupt signal: time and signals are not modelled.
- `updateInfo`, the CPU-info step: `Update` takes its outcome as an input
  sample list or error. Its descriptor `cpuInfo` is nil in the source, so
  sending through it (`cpu_linux.go:180-181`) panics when info is enabled
  and at least one CPU is listed; that panic is not modelled.
- CpuStats.StatSamples, CpuCollector.CpuCollector.UpdateStat: the source sends the CPU-time samples through
  the 10-label descriptor `c.cpu` with only 2 label values (`cpu_linux.go:54-58, 213`), so
  `MustNewConstMetric` panics on the first send for any non-empty cache and nothing is emitted. The model
  emits the ten samples per CPU that the code evidently means, as family `fil_cpu_info` with labels
  `[cpu, mode]`, and does not model descriptor arity checks.
- CpuThrottle.PackageSample, CpuThrottle.CoreSample: the value is `count as real`, exact, while the source's
  `float64(count)` of a `uint64` (`cpu_linux.go:157, 165`) rounds counts above 2^53.
- Float semantics: counters are `real` and are only compared and copied, so NaN and signed zero are not modelled.
- `encoding/csv`, `strconv.ParseFloat` and `filepath.Join` are oracles or parameters, not implementations.
- `collector/helper.go` (`ReadUintFromFile`): reads arrive as `Option<u64>`.
- CpuThrottle.CoreFirstWins, CpuThrottle.PackageFirstWins: the source skips the file read when the key is present; the model captures this only as a present key never being overwritten, not as a count of reads.
- The registry, the enable/disable flags, `collector/state.go` and `collector/error.go`: the pusher imports the upstream collector package, whose registration is not shown. `Start` takes that package's outcome as input.
- Gathering and `expfmt` text encoding: `Tick` takes the encoded batch, or the gather/encode error, as input.
- The encoder close after sending (`node_pusher.go:181-186`): text encoding has nothing to flush.
- Each tick's `defer resp.Body.Close()` accumulates in the never-returning goroutine: resource leaks are not modelled.
- NodePusher.LessEq: orders by Unicode character rather than by UTF-8 byte; the two orders coincide on valid UTF-8.
- NodePusher.Qualifies: an IP is abstracted to its loopback flag and its IPv4 text, so the bit-level rules of `IsLoopback`/`To4` are not modelled.
- Logging in the collectors: the hot-plug and regression warnings of `updateCPUStats` (`cpu_linux.go:244-300`), the debug notes of `updateThermalThrottle` (`cpu_linux.go:116, 121, 139, 149`) and of the GPU `Update` (`gpu_linux.go:71, 89`) are not modelled; only the values are.
- `build.go`: build tooling.
- Gpu.Update, Gpu.EmitRecords: require every record to have 1 to 8 cells. An empty record (`infoPerCore[1:]`) or a longer one (`names[j]` past 7 entries) makes the source panic, and that panic is not modelled.
