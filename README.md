# sharp concurrency benchmarks, modelled in Dafny

This project models the three scripts of sharp's `test/bench` directory that measure how the
libuv thread pool size (`UV_THREADPOOL_SIZE`) and sharp's own `sharp.concurrency` setting
affect throughput:

- **the concurrency sweep** (`concurrency.js`). For each output format (jpeg, png, webp,
  avif) it forks one worker per (thread pool size, concurrency) pair, one after another, 53
  pairs in a fixed order. It keeps the means of every worker that closed with code 0 and
  printed parseable JSON. It then prints, per format, a table sorted by total threads
  (`uvSize * concurrency`) and the best configuration per parallelism level, then a
  comparison of those best configurations across formats.
- **the concurrency worker** (`concurrency-worker.js`). It reads `SHARP_CONCURRENCY` and
  `BENCH_FORMAT` from the environment. For the parallelism levels 1, 4, 8, 16, 32 and 64 in
  turn it issues that many resize-and-encode operations at once, then prints `{ means }`, where
  `means[p]` is the mean completion time at level `p`.
- **the large-image worker** (`large-image-worker.js`). It builds 36 tasks: 3 size classes × 3
  formats × 4 repetitions. It runs them with at most `MAX_CONCURRENT` in flight, groups the
  elapsed times by `${size}_${format}`, and prints the mean per key with the total time. Any
  failure exits with status 1.

Modules:

- `Common`: `Option`, and `Exit`, which is either a printed output or an exit status.
- `Stats`: sum, min, max and mean of a list of millisecond times.
- `JsInt`: `parseInt(s, 10)`, `String(n)` and environment lookup.
- `Encoders`: the encoder step that ends a pipeline.
- `ConcurrencyWorker` and `LargeImageWorker`: the two worker processes.
- `Ranking`: the pure part of `printResults`. This is the sort by total threads (JavaScript's
  stable `Array.prototype.sort`), the table cells and the best record per level.
- `ConcurrencySweep`: the driver, as a class `Sweep`. Its fields are `resultsByFormat` and the
  list of children it forked (each a format and a configuration). `RunConfig`, `RunFormat`,
  `RunFormats`, `PrintResults`, `PrintFormats`, `PrintAllResults` and `Run` update them.

The outside world enters as parameters:

- A worker operation's outcome (its completion time, or `None` on error) is a function
  `op(p, id)` for the concurrency worker and a sequence `elapsed` for the large-image worker.
- A forked child's outcome is a `ChildOutcome`: its close code and its parsed `means`.
- The environment is a `map<string, string>`.

## Model

| member | source | states |
|---|---|---|
| Stats.MeanWithinRange | test/bench/large-image-worker.js:117 | a mean of millisecond times (sum divided by count) lies between the fastest and the slowest time |
| Stats.SumPermutation | test/bench/large-image-worker.js:107 | the sum of the times does not depend on the order in which they were pushed |
| Stats.MeanPermutation | test/bench/large-image-worker.js:100-117 | the mean per key does not depend on task completion order: any reordering of the pushed times gives the same mean |
| JsInt.DecimalString | test/bench/concurrency.js:87-88 | `String(n)` of a non-negative integer is non-empty, all digits, without a leading zero |
| JsInt.ParseDecimal | test/bench/concurrency-worker.js:15 | `parseInt(String(n), 10)` gives back `n` for every non-negative `n` |
| JsInt.EnvIntDecimal | test/bench/concurrency.js:87-88 | a variable set to `String(n)` reads back through `parseInt(process.env[name], 10)` as `n` |
| ConcurrencyWorker.Concurrency | test/bench/concurrency-worker.js:15 | `parseInt(SHARP_CONCURRENCY, 10) \|\| 1` is never 0; it is the parsed value whenever that is a non-zero number, and 1 exactly when parsing gives NaN or 0 |
| ConcurrencyWorker.Format | test/bench/concurrency-worker.js:16 | `BENCH_FORMAT \|\| 'jpeg'` is never empty; it is the variable's value whenever that is set and non-empty, and jpeg when the variable is missing or empty |
| ConcurrencyWorker.ApplyFormat | test/bench/concurrency-worker.js:37-49 | the encoder's output format is avif, png or webp when that is asked for, and jpeg for jpeg and every other value |
| ConcurrencyWorker.RunLevel | test/bench/concurrency-worker.js:54-64 | a level issues exactly `p` operations; it succeeds iff all of them succeed, and then it holds their completion times in operation order |
| ConcurrencyWorker.MeansOverSpec | test/bench/concurrency-worker.js:51-74 | the means record exists iff every level succeeds; its keys are exactly the levels, and `means[p]` is the mean of level `p`'s times |
| ConcurrencyWorker.MeansOverFailsAfter | test/bench/concurrency-worker.js:66 | once a level fails, the run can no longer print a record |
| ConcurrencyWorker.Run | test/bench/concurrency-worker.js:51-74 | the levels run in order; the worker prints the means record exactly when every level succeeds, and otherwise exits with status 1 after starting the levels up to and including the first failing one |
| ConcurrencyWorker.PrintedRecord | test/bench/concurrency-worker.js:51-74 | a record is printed iff every operation of every level succeeds; it has keys 1, 4, 8, 16, 32, 64 exactly, and each mean is the level's sum over `p`, between its fastest and slowest completion |
| Ranking.StableSortCorrect | test/bench/concurrency.js:148 | the sort returns a sorted permutation of its input |
| Ranking.StableSortStable | test/bench/concurrency.js:148 | the sort is stable: the records sharing a key keep their relative order |
| Ranking.StableSortSorted | test/bench/concurrency.js:148 | sorting an already sorted list leaves it unchanged |
| Ranking.ThreadOrder | test/bench/concurrency.js:148 | the table order is ascending in `uvSize * concurrency`, a permutation of the results, ties kept in sweep order, and sorting it again changes nothing |
| Ranking.BestIsFirstMinimum | test/bench/concurrency.js:164-171 | there is no best record at level `p` iff no record has a truthy mean there; otherwise the best is the first record whose truthy mean is the smallest |
| Ranking.FirstBestUnique | test/bench/concurrency.js:165-167 | at most one position holds the first smallest truthy mean, so the best record is well defined |
| Ranking.RowOf | test/bench/concurrency.js:150-158 | a table row shows UV, Conc, their product, and per level a dash exactly when the mean is missing or zero, and the mean otherwise |
| Ranking.ReportOfSpec | test/bench/concurrency.js:137-172 | a format's report has one row per record, in table order, and one best entry per parallelism level; that entry is absent iff no record has a truthy mean at the level, and is otherwise the first record with the smallest one |
| LargeImageWorker.ApplyFormat | test/bench/large-image-worker.js:33-53 | the encoder's output format is avif, png or webp when that is asked for, and jpeg for jpeg and every other value |
| LargeImageWorker.MaxConcurrent | test/bench/large-image-worker.js:13 | `parseInt(MAX_CONCURRENT, 10) \|\| 4` is never 0; it is the parsed value whenever that is a non-zero number (negative ones included), and 4 exactly when parsing gives NaN or 0 |
| LargeImageWorker.MaxConcurrentDecimal | test/bench/large-image-worker.js:13 | a `MAX_CONCURRENT` holding the decimal string of `m` gives the limit `m`, or 4 when `m` is 0 |
| LargeImageWorker.SharpConcurrency | test/bench/large-image-worker.js:12-18 | `sharp.concurrency` is set to the parsed `SHARP_CONCURRENCY` when it parses, and is left unchanged otherwise |
| LargeImageWorker.ZeroConcurrencyPassedThrough | test/bench/large-image-worker.js:15-17 | `SHARP_CONCURRENCY=0` reaches `sharp.concurrency` as 0 (auto-detect) rather than being replaced by a default |
| LargeImageWorker.GenerateTasks | test/bench/large-image-worker.js:88-96 | the three nested loops build exactly the specified task list |
| LargeImageWorker.TaskOrder | test/bench/large-image-worker.js:88-96 | there are 36 tasks, and task `i` is size `i / 12` with format `(i % 12) / 4`: sizes outermost, then formats, then 4 repetitions |
| LargeImageWorker.TaskCounts | test/bench/large-image-worker.js:89-94 | every (size, format) pair of the benchmark occurs exactly 4 times, and nothing else occurs |
| LargeImageWorker.WeightsIgnored | test/bench/large-image-worker.js:89-94 | the size classes have different declared weights (lines 26-28), yet for each format every size class is queued equally often |
| LargeImageWorker.KeyInjective | test/bench/large-image-worker.js:101 | distinct tasks have distinct keys `${size}_${format}` |
| LargeImageWorker.GroupedAt | test/bench/large-image-worker.js:100-107 | a key is in `times` iff some task with that key ran; its list then holds exactly that key's elapsed times, in task order, and is non-empty |
| LargeImageWorker.TimesOfLength | test/bench/large-image-worker.js:101-107 | a key's list holds one time per task with that key |
| LargeImageWorker.GroupedGrows | test/bench/large-image-worker.js:104-107 | running more tasks never removes a key and only appends to a key's list |
| LargeImageWorker.AllTasksGrouped | test/bench/large-image-worker.js:88-107 | after a full run, `times` has a key for each of the nine (size, format) pairs and for nothing else, with 4 times under each |
| LargeImageWorker.PushedAt | test/bench/large-image-worker.js:104-107 | a push creates the key's list if it is missing, appends the time to it and leaves every other key's list alone |
| LargeImageWorker.Push | test/bench/large-image-worker.js:104-107 | the two statements `if (!times[key]) times[key] = []` and `push` together perform exactly one push onto `times` |
| LargeImageWorker.CollectTimes | test/bench/large-image-worker.js:98-112 | the run is rejected iff some task fails; otherwise `times` is every task's elapsed time grouped by key |
| LargeImageWorker.MeanTimes | test/bench/large-image-worker.js:114-118 | `meanTimes` has the same keys as `times`, and each entry is that key's sum over count, between its fastest and slowest time |
| LargeImageWorker.RunBenchmark | test/bench/large-image-worker.js:83-132 | the process exits with status 1 iff some task fails; otherwise it prints, per key of the grouped times, their mean, together with `totalTime` and `maxConcurrent` |
| ConcurrencySweep.SucceededIndices | test/bench/concurrency.js:103-115 | the configurations whose child closed with code 0 and whose output parsed, each exactly once and in increasing order |
| ConcurrencySweep.CollectedRecords | test/bench/concurrency.js:103-116 | `runConfig` keeps exactly one record per succeeded child, in configuration order, carrying that configuration's `uvSize`, its `concurrency` and the child's means |
| ConcurrencySweep.WorkerRecord | test/bench/concurrency.js:107-111 | a record kept from a worker's printed means has a mean at every level and no other key, so its row shows a dash only where that mean is 0 |
| ConcurrencySweep.ChildEnv | test/bench/concurrency.js:84-92 | the child's environment is the parent's, with exactly the three benchmark variables set and every other variable kept |
| ConcurrencySweep.ChildSettings | test/bench/concurrency.js:85-90 | the forked worker reads back the configuration's thread pool size and concurrency, and for a benchmarked format it uses that format's encoder |
| ConcurrencySweep.AllLaunchesAt | test/bench/concurrency.js:120-135 | fork number `k * 53 + i` is configuration `i` of format `k`: every format is run over every configuration once, in order |
| ConcurrencySweep.SortedUpToAt | test/bench/concurrency.js:175-177 | printing the first `n` formats sorts each of their lists once and leaves every other list alone |
| ConcurrencySweep.SortedAllAt | test/bench/concurrency.js:175-177 | once every format is printed, exactly the four formats' lists are sorted by total threads |
| ConcurrencySweep.CollectedUpToAt | test/bench/concurrency.js:131-133 | after the first `n` formats ran, each holds exactly its own collected records and every other list is untouched |
| ConcurrencySweep.CollectedAllAt | test/bench/concurrency.js:120-135 | after every format ran, the keys are the old ones plus the four formats, each format holds exactly its own collected records, and every other list is untouched |
| ConcurrencySweep.Sweep.constructor | test/bench/concurrency.js:10-73 | the sweep starts with the 53 configurations, no results and no forked child |
| ConcurrencySweep.Sweep.RunConfig | test/bench/concurrency.js:75-118 | running configurations from `configIndex` on appends exactly the collected records to `resultsByFormat[format]`, forks one child per configuration (recording its format and configuration) and changes no other format |
| ConcurrencySweep.Sweep.RunFormat | test/bench/concurrency.js:126-134 | a format's list is reset, then holds exactly the records collected over every configuration; one child per configuration is forked and no other format changes |
| ConcurrencySweep.Sweep.RunFormats | test/bench/concurrency.js:120-135 | the formats run one after another: the forks are every (format, configuration) pair in order, and each format's list holds exactly its own collected records |
| ConcurrencySweep.Sweep.PrintResults | test/bench/concurrency.js:137-172 | the format's list is sorted in place by total threads, and the report is built from that sorted list |
| ConcurrencySweep.Sweep.CompareBest | test/bench/concurrency.js:184-194 | for each level and each format, the comparison holds that format's best record at that level |
| ConcurrencySweep.Sweep.PrintFormats | test/bench/concurrency.js:175-177 | the formats are printed in order; each report is built from that format's list just after it was sorted, and no child is forked |
| ConcurrencySweep.Sweep.PrintAllResults | test/bench/concurrency.js:174-195 | each format's list ends up sorted, and the comparison takes its best records from those sorted lists, so it agrees with the per-format reports |
| ConcurrencySweep.Sweep.Run | test/bench/concurrency.js:120-135 | after the sweep, each format's list is its collected records sorted by total threads, the forks are every (format, configuration) pair in order, and the report is built from those lists |

## Left out

- Forking, the IPC channel, the forwarding of stderr and the console output are left out. The
  printed tables are modelled as values (`Row`, `FormatReport`, `SweepReport`); padding,
  `toFixed(1)` rounding and the banner lines are not modelled.
- `JSON.parse(output.trim())` is not modelled as text. A child's parsed output is given as an
  `Option` of its `means` object. A JSON document without a `means` field, which would make
  `printResults` throw, is not modelled.
- A close code of `null` (a child ended by a signal) is the `None` close code, and is treated
  like any non-zero code.
- The sharp pipeline itself (rotate, resize, encode), the fixtures and `sharp.cache(false)`
  are left out. Each operation is reduced to its completion time or failure, given as a
  parameter; `Date.now()` and the wall-clock total are parameters too.
- `ConcurrencyWorker.ApplyFormat` and `LargeImageWorker.ApplyFormat` include the option
  values passed to each encoder, but not what the encoder does with them.
- `async.eachLimit`'s bound of `maxConcurrent` tasks in flight and the order in which tasks
  complete are not modelled. Times are pushed in task order. `Stats.MeanPermutation` shows
  that reordering a key's times keeps its mean; that grouping in completion order gives each
  key a reordering of its task-order list is not proved.
- LargeImageWorker.RunBenchmark: a `MAX_CONCURRENT` that parses to a negative number is truthy
  and is kept as the limit (`LargeImageWorker.MaxConcurrent` states this). What
  `async.eachLimit` does with a limit below 1 depends on the `async` version (it throws, or it
  completes at once without running any task), and is not modelled: the model runs all 36
  tasks whatever the limit.
- LargeImageWorker.RunBenchmark: when a task fails, `eachLimit` stops starting new tasks, but
  tasks already in flight may still finish. The model only states that the run is rejected
  and nothing is printed.
- `async.times` issues the `p` operations of a level concurrently. The model takes each
  operation's completion time as given, without the interleaving.
- JsInt.ParseInt handles leading whitespace, an optional sign and the leading decimal digits.
  JavaScript's full whitespace set beyond the ten characters listed, and precision loss for
  numbers above 2^53, are not modelled.
- JsInt.DecimalString is plain decimal digits for every `n`. JavaScript's `String(n)` is exact
  only up to 2^53 and switches to exponent form from 1e21 on; neither is modelled. Every
  configuration value of the sweep is at most 64.
- Numbers are exact: times are `nat` milliseconds and means are `real`, with no
  double-precision rounding.
- Ranking.RowOf: a mean of exactly 0 ms is falsy in JavaScript, so it is shown as `-` and is
  never a best configuration, as in the source.
- `sharp.concurrency(0)`'s auto-detection of the core count happens inside sharp and is not
  modelled.
- ConcurrencySweep.ChildSettings states `Concurrency == if c.concurrency == 0 then 1 else
  c.concurrency`. No listed configuration has concurrency 0, but that is not proved over
  the 53-entry list.
- `Sweep.launched` records each fork's format and configuration, not its environment. That
  environment is `ChildEnv` of the format, the configuration and the parent's environment,
  and `ChildSettings` states what the worker reads from it.
