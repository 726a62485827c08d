/**
 * The concurrency sweep driver: for each output format in turn it forks one worker per
 * (thread pool size, concurrency) configuration, collects the worker's printed means,
 * then prints one table per format, the best configuration per parallelism level, and a
 * comparison of those best configurations across formats.
 */
module ConcurrencySweep {
  import opened Common
  import JsInt
  import opened Encoders
  import opened Ranking
  import ConcurrencyWorker

  /** One configuration: the child's `UV_THREADPOOL_SIZE` and its `sharp.concurrency`. */
  datatype Config = Config(uvSize: nat, concurrency: nat)

  /** The 53 configurations, tried in this order for every format. */
  const CONFIGS: seq<Config> := [
    Config(1, 1), Config(1, 2), Config(1, 4), Config(1, 8), Config(1, 16), Config(1, 32),
    Config(1, 64), Config(2, 1), Config(2, 2), Config(2, 4), Config(2, 8), Config(2, 16),
    Config(2, 32), Config(2, 64), Config(4, 1), Config(4, 2), Config(4, 4), Config(4, 8),
    Config(4, 16), Config(4, 32), Config(4, 64), Config(8, 1), Config(8, 2), Config(8, 4),
    Config(8, 8), Config(16, 1), Config(16, 2), Config(16, 4), Config(16, 8), Config(16, 16),
    Config(16, 32), Config(16, 64), Config(64, 1), Config(64, 2), Config(64, 4), Config(64, 8),
    Config(64, 16), Config(64, 32), Config(64, 64), Config(9, 1), Config(9, 2), Config(9, 4),
    Config(9, 8), Config(9, 16), Config(9, 32), Config(9, 64), Config(10, 1), Config(10, 2),
    Config(10, 4), Config(10, 8), Config(10, 16), Config(10, 32), Config(10, 64)
  ]

  /** The formats, benchmarked one after another in this order. */
  const FORMATS: seq<string> := ["jpeg", "png", "webp", "avif"]

  /**
   * How a forked worker ended: its close code (`None` when it was ended by a signal and
   * the code is `null`) and the `means` object of its trimmed standard output when that
   * parses as JSON (`None` when it does not).
   */
  datatype ChildOutcome = ChildOutcome(exitCode: Option<int>, parsed: Option<map<nat, real>>)

  /** A child's results are kept only when it closed with code 0 and its output parsed. */
  predicate Succeeded(o: ChildOutcome) {
    o.exitCode == Some(0) && o.parsed.Some?
  }

  /** `{ uvSize, concurrency, ...data }`: the record kept for configuration `c`. */
  function RecordOf(c: Config, o: ChildOutcome): Record
    requires Succeeded(o)
  {
    Record(c.uvSize, c.concurrency, o.parsed.value)
  }

  /**
   * The records `runConfig` appends while it runs configurations `from` up to `until`
   * (exclusive) of `configs`, child `i` ending as `outcomes[i]`.
   */
  function Collected(configs: seq<Config>, outcomes: seq<ChildOutcome>, from: nat, until: nat): seq<Record>
    requires until <= |outcomes| && until <= |configs|
    decreases until
  {
    if until <= from then []
    else Collected(configs, outcomes, from, until - 1) +
         (if Succeeded(outcomes[until - 1]) then [RecordOf(configs[until - 1], outcomes[until - 1])] else [])
  }

  /** The configurations in `[from, until)` whose child succeeded, in increasing order, each exactly once. */
  function SucceededIndices(outcomes: seq<ChildOutcome>, from: nat, until: nat): (ix: seq<nat>)
    requires until <= |outcomes|
    ensures forall k :: 0 <= k < |ix| ==> from <= ix[k] < until && Succeeded(outcomes[ix[k]])
    ensures forall k, l :: 0 <= k < l < |ix| ==> ix[k] < ix[l]
    ensures forall i :: from <= i < until && Succeeded(outcomes[i]) ==> i in ix
    decreases until
  {
    if until <= from then []
    else SucceededIndices(outcomes, from, until - 1) + (if Succeeded(outcomes[until - 1]) then [until - 1] else [])
  }

  /** One more configuration appends its record, if its child succeeded, to what was collected before. */
  lemma CollectedStep(configs: seq<Config>, outcomes: seq<ChildOutcome>, from: nat, i: nat, prefix: seq<Record>)
    requires from <= i < |outcomes| && i < |configs|
    ensures prefix + Collected(configs, outcomes, from, i + 1) ==
            prefix + Collected(configs, outcomes, from, i) +
            if Succeeded(outcomes[i]) then [RecordOf(configs[i], outcomes[i])] else []
  {
  }

  /** `records[k]` is the record of configuration `ix[k]`, whose child succeeded. */
  predicate Paired(configs: seq<Config>, outcomes: seq<ChildOutcome>, records: seq<Record>, ix: seq<nat>) {
    |records| == |ix| &&
    forall k :: 0 <= k < |records| ==>
      ix[k] < |configs| && ix[k] < |outcomes| && Succeeded(outcomes[ix[k]]) &&
      records[k] == RecordOf(configs[ix[k]], outcomes[ix[k]])
  }

  lemma PairedStep(configs: seq<Config>, outcomes: seq<ChildOutcome>, records: seq<Record>, ix: seq<nat>, i: nat)
    requires Paired(configs, outcomes, records, ix)
    requires i < |configs| && i < |outcomes| && Succeeded(outcomes[i])
    ensures Paired(configs, outcomes, records + [RecordOf(configs[i], outcomes[i])], ix + [i])
  {
    var records', ix' := records + [RecordOf(configs[i], outcomes[i])], ix + [i];
    forall k | 0 <= k < |records'|
      ensures ix'[k] < |configs| && ix'[k] < |outcomes| && Succeeded(outcomes[ix'[k]]) &&
              records'[k] == RecordOf(configs[ix'[k]], outcomes[ix'[k]])
    {
      if k < |records| {
        assert records'[k] == records[k] && ix'[k] == ix[k];
      }
    }
  }

  lemma {:induction false} CollectedPaired(configs: seq<Config>, outcomes: seq<ChildOutcome>, from: nat, until: nat)
    requires until <= |outcomes| && until <= |configs|
    ensures Paired(configs, outcomes, Collected(configs, outcomes, from, until), SucceededIndices(outcomes, from, until))
    decreases until
  {
    if until > from {
      CollectedPaired(configs, outcomes, from, until - 1);
      var o := outcomes[until - 1];
      if Succeeded(o) {
        PairedStep(configs, outcomes, Collected(configs, outcomes, from, until - 1),
                   SucceededIndices(outcomes, from, until - 1), until - 1);
      } else {
        assert Collected(configs, outcomes, from, until) == Collected(configs, outcomes, from, until - 1) + [];
        assert SucceededIndices(outcomes, from, until) == SucceededIndices(outcomes, from, until - 1) + [];
      }
    }
  }

  /**
   * The collected records are exactly one per succeeded configuration, in configuration
   * order, each carrying that configuration's sizes and its child's means.
   */
  lemma CollectedRecords(configs: seq<Config>, outcomes: seq<ChildOutcome>, from: nat, until: nat)
    requires until <= |outcomes| && until <= |configs|
    ensures |Collected(configs, outcomes, from, until)| == |SucceededIndices(outcomes, from, until)|
    ensures forall k :: 0 <= k < |Collected(configs, outcomes, from, until)| ==>
              var i := SucceededIndices(outcomes, from, until)[k];
              var r := Collected(configs, outcomes, from, until)[k];
              r.uvSize == configs[i].uvSize && r.concurrency == configs[i].concurrency &&
              r.means == outcomes[i].parsed.value
  {
    CollectedPaired(configs, outcomes, from, until);
  }

  /**
   * A record kept from a worker that printed its means has a mean for every level and no
   * other key, so its table row shows `-` only where that mean is 0.
   */
  lemma WorkerRecord(c: Config, op: ConcurrencyWorker.Operation)
    requires ConcurrencyWorker.MeansOver(ConcurrencyWorker.PARALLELISM_LEVELS, op).Some?
    ensures var r := RecordOf(c, ChildOutcome(Some(0), ConcurrencyWorker.MeansOver(ConcurrencyWorker.PARALLELISM_LEVELS, op)));
            (forall p :: p in r.means <==> p in PARALLELISM_LEVELS) &&
            forall i :: 0 <= i < |PARALLELISM_LEVELS| ==>
              (RowOf(r).cells[i].None? <==> r.means[PARALLELISM_LEVELS[i]] == 0.0)
  {
    ConcurrencyWorker.PrintedRecord(op);
  }

  /** `{ ...process.env, UV_THREADPOOL_SIZE, SHARP_CONCURRENCY, BENCH_FORMAT }` for configuration `c`. */
  function ChildEnv(parentEnv: map<string, string>, format: string, c: Config): (env: map<string, string>)
    ensures env.Keys == parentEnv.Keys + {"UV_THREADPOOL_SIZE", "SHARP_CONCURRENCY", "BENCH_FORMAT"}
    ensures forall key :: key in parentEnv && key !in {"UV_THREADPOOL_SIZE", "SHARP_CONCURRENCY", "BENCH_FORMAT"} ==>
              env[key] == parentEnv[key]
  {
    parentEnv + map["UV_THREADPOOL_SIZE" := JsInt.DecimalString(c.uvSize),
                    "SHARP_CONCURRENCY" := JsInt.DecimalString(c.concurrency),
                    "BENCH_FORMAT" := format]
  }

  /**
   * The worker forked for configuration `c` of a benchmarked format reads back exactly
   * the settings the driver meant: its thread pool size, its concurrency (replaced by the
   * `|| 1` default only if it were 0, which no listed configuration
   * is), its format, and the encoder of that same format.
   */
  lemma ChildSettings(parentEnv: map<string, string>, format: string, c: Config)
    ensures JsInt.EnvInt(ChildEnv(parentEnv, format, c), "UV_THREADPOOL_SIZE") == Some(c.uvSize as int)
    ensures ConcurrencyWorker.Concurrency(ChildEnv(parentEnv, format, c)) == if c.concurrency == 0 then 1 else c.concurrency
    ensures format in FORMATS ==>
              ConcurrencyWorker.Format(ChildEnv(parentEnv, format, c)) == format &&
              OutputFormat(ConcurrencyWorker.ApplyFormat(format)) == format
  {
    var child := ChildEnv(parentEnv, format, c);
    ChildEnvSets(parentEnv, format, c);
    JsInt.EnvIntDecimal(child, "UV_THREADPOOL_SIZE", c.uvSize);
    ConcurrencyRead(child, c.concurrency);
    FormatRead(child, format);
  }

  /** A worker whose `SHARP_CONCURRENCY` is the decimal string of `n` runs `n` operations at a time, or 1 if `n` is 0. */
  lemma ConcurrencyRead(child: map<string, string>, n: nat)
    requires "SHARP_CONCURRENCY" in child && child["SHARP_CONCURRENCY"] == JsInt.DecimalString(n)
    ensures ConcurrencyWorker.Concurrency(child) == if n == 0 then 1 else n
  {
    JsInt.EnvIntDecimal(child, "SHARP_CONCURRENCY", n);
  }

  /** A worker whose `BENCH_FORMAT` is one of the benchmarked formats uses that format and its encoder. */
  lemma FormatRead(child: map<string, string>, format: string)
    requires "BENCH_FORMAT" in child && child["BENCH_FORMAT"] == format
    ensures format in FORMATS ==>
              ConcurrencyWorker.Format(child) == format &&
              OutputFormat(ConcurrencyWorker.ApplyFormat(format)) == format
  {
  }

  lemma ChildEnvSets(parentEnv: map<string, string>, format: string, c: Config)
    ensures var child := ChildEnv(parentEnv, format, c);
            "UV_THREADPOOL_SIZE" in child && child["UV_THREADPOOL_SIZE"] == JsInt.DecimalString(c.uvSize) &&
            "SHARP_CONCURRENCY" in child && child["SHARP_CONCURRENCY"] == JsInt.DecimalString(c.concurrency) &&
            "BENCH_FORMAT" in child && child["BENCH_FORMAT"] == format
  {
  }

  /**
   * A forked child: the format and the configuration it was started for. Its environment is
   * `ChildEnv(parentEnv, format, config)`.
   */
  datatype Fork = Fork(format: string, config: Config)

  /** The children forked for configurations `from` onwards of `format`, in fork order. */
  function Launches(configs: seq<Config>, format: string, from: nat): (forks: seq<Fork>)
    ensures |forks| == if from < |configs| then |configs| - from else 0
    ensures forall k :: 0 <= k < |forks| ==> forks[k] == Fork(format, configs[from + k])
  {
    if from < |configs| then
      seq(|configs| - from, k requires 0 <= k < |configs| - from => Fork(format, configs[from + k]))
    else
      []
  }

  /** The children forked for the first `n` formats, in fork order. */
  function AllLaunches(configs: seq<Config>, n: nat): seq<Fork>
    requires n <= |FORMATS|
  {
    if n == 0 then [] else AllLaunches(configs, n - 1) + Launches(configs, FORMATS[n - 1], 0)
  }

  lemma BlocksGrow(n: nat, m: nat)
    requires n >= 1
    ensures (n - 1) * m + m == n * m
  {
  }

  /** Position `i` of block `k`, in blocks of `m`, lies inside the first `n` blocks. */
  lemma BlockIndex(k: nat, i: nat, m: nat, n: nat)
    requires k < n && i < m
    ensures k * m + i < n * m && k * m + i >= k * m
    ensures k == n - 1 ==> k * m == n * m - m
  {
    assert (k + 1) * m == k * m + m;
    assert n * m == (n - 1) * m + m;
    assert (k + 1) * m <= n * m;
  }

  /**
   * Every format is run over every configuration exactly once, formats in order and, within
   * a format, configurations in order: fork number `k * |configs| + i` is configuration `i`
   * of format `k`.
   */
  lemma {:induction false} AllLaunchesAt(configs: seq<Config>, n: nat)
    requires n <= |FORMATS|
    ensures |AllLaunches(configs, n)| == n * |configs|
    ensures forall k, i :: 0 <= k < n && 0 <= i < |configs| ==>
              k * |configs| + i < n * |configs| &&
              AllLaunches(configs, n)[k * |configs| + i] == Fork(FORMATS[k], configs[i])
  {
    if n > 0 {
      AllLaunchesAt(configs, n - 1);
      var prev := AllLaunches(configs, n - 1);
      var all := AllLaunches(configs, n);
      assert all == prev + Launches(configs, FORMATS[n - 1], 0);
      BlocksGrow(n, |configs|);
      forall k, i | 0 <= k < n && 0 <= i < |configs|
        ensures k * |configs| + i < n * |configs|
        ensures all[k * |configs| + i] == Fork(FORMATS[k], configs[i])
      {
        BlockIndex(k, i, |configs|, n);
        if k < n - 1 {
          BlockIndex(k, i, |configs|, n - 1);
        }
      }
    }
  }

  /** The four benchmarked formats are distinct. */
  lemma FormatsDistinct()
    ensures forall i, j :: 0 <= i < j < |FORMATS| ==> FORMATS[i] != FORMATS[j]
  {
  }

  /** The `n`-th format is not among the ones before it. */
  lemma FormatNew(n: nat)
    requires 0 < n <= |FORMATS|
    ensures FORMATS[..n] == FORMATS[..n - 1] + [FORMATS[n - 1]]
    ensures FORMATS[n - 1] !in FORMATS[..n - 1]
  {
    FormatsDistinct();
  }

  /** `results` after the lists of the first `n` formats have been sorted by total threads, one after another. */
  function SortedUpTo(results: map<string, seq<Record>>, n: nat): (sorted: map<string, seq<Record>>)
    requires n <= |FORMATS| && forall f :: f in FORMATS ==> f in results
    ensures sorted.Keys == results.Keys
  {
    if n == 0 then results
    else
      var before := SortedUpTo(results, n - 1);
      before[FORMATS[n - 1] := StableSort(before[FORMATS[n - 1]], ByThreads)]
  }

  /** Sorting touches only the formats' lists, each exactly once, and leaves every other list alone. */
  lemma {:induction false} SortedUpToAt(results: map<string, seq<Record>>, n: nat, f: string)
    requires n <= |FORMATS| && forall f :: f in FORMATS ==> f in results
    ensures SortedUpTo(results, n).Keys == results.Keys
    ensures f in results ==>
              SortedUpTo(results, n)[f] == if f in FORMATS[..n] then StableSort(results[f], ByThreads) else results[f]
  {
    if n > 0 {
      SortedUpToAt(results, n - 1, f);
      FormatNew(n);
    }
  }

  /** Once every format has been sorted, exactly the formats' lists are sorted. */
  lemma SortedAllAt(results: map<string, seq<Record>>, f: string)
    requires forall f :: f in FORMATS ==> f in results
    ensures f in results ==>
              SortedUpTo(results, |FORMATS|)[f] == if f in FORMATS then StableSort(results[f], ByThreads) else results[f]
  {
    SortedUpToAt(results, |FORMATS|, f);
    assert FORMATS[..|FORMATS|] == FORMATS;
  }

  /** `results` after each of the first `n` formats has been reset and then run over every configuration. */
  function CollectedUpTo(configs: seq<Config>, results: map<string, seq<Record>>, outcomes: seq<seq<ChildOutcome>>, n: nat): (collected: map<string, seq<Record>>)
    requires n <= |outcomes| == |FORMATS| && forall k :: 0 <= k < |FORMATS| ==> |outcomes[k]| == |configs|
    ensures forall f :: f in results ==> f in collected
    ensures forall k :: 0 <= k < n ==> FORMATS[k] in collected
  {
    if n == 0 then results
    else CollectedUpTo(configs, results, outcomes, n - 1)[FORMATS[n - 1] := Collected(configs, outcomes[n - 1], 0, |configs|)]
  }

  /** After the first `n` formats ran, each has exactly its own collected records and every other list is untouched. */
  lemma {:induction false} CollectedUpToAt(configs: seq<Config>, results: map<string, seq<Record>>, outcomes: seq<seq<ChildOutcome>>, n: nat, f: string)
    requires n <= |outcomes| == |FORMATS| && forall k :: 0 <= k < |FORMATS| ==> |outcomes[k]| == |configs|
    ensures f in CollectedUpTo(configs, results, outcomes, n) <==> f in results || f in FORMATS[..n]
    ensures f in results && f !in FORMATS[..n] ==> CollectedUpTo(configs, results, outcomes, n)[f] == results[f]
    ensures forall k :: 0 <= k < n ==>
              CollectedUpTo(configs, results, outcomes, n)[FORMATS[k]] == Collected(configs, outcomes[k], 0, |configs|)
  {
    if n > 0 {
      CollectedUpToAt(configs, results, outcomes, n - 1, f);
      FormatNew(n);
      FormatsDistinct();
      forall k | 0 <= k < n - 1
        ensures CollectedUpTo(configs, results, outcomes, n - 1)[FORMATS[k]] == Collected(configs, outcomes[k], 0, |configs|)
      {
        CollectedUpToAt(configs, results, outcomes, n - 1, FORMATS[k]);
      }
    }
  }

  /** After every format ran, exactly the formats hold their collected records and every other list is untouched. */
  lemma CollectedAllAt(configs: seq<Config>, results: map<string, seq<Record>>, outcomes: seq<seq<ChildOutcome>>, f: string)
    requires |outcomes| == |FORMATS| && forall k :: 0 <= k < |FORMATS| ==> |outcomes[k]| == |configs|
    ensures f in CollectedUpTo(configs, results, outcomes, |FORMATS|) <==> f in results || f in FORMATS
    ensures f in results && f !in FORMATS ==> CollectedUpTo(configs, results, outcomes, |FORMATS|)[f] == results[f]
    ensures forall k :: 0 <= k < |FORMATS| ==>
              CollectedUpTo(configs, results, outcomes, |FORMATS|)[FORMATS[k]] == Collected(configs, outcomes[k], 0, |configs|)
  {
    CollectedUpToAt(configs, results, outcomes, |FORMATS|, f);
    assert FORMATS[..|FORMATS|] == FORMATS;
  }

  /** What `printAllResults` shows: one report per format, then per level the best record of each format. */
  datatype SweepReport = SweepReport(perFormat: seq<FormatReport>, comparison: seq<seq<Option<Record>>>)

  class Sweep {
    /** `configs`: the configurations every format is run over. */
    const configs: seq<Config>
    /** `resultsByFormat`: the records collected so far for each format. */
    var resultsByFormat: map<string, seq<Record>>
    /** Every child forked so far, in fork order. */
    var launched: seq<Fork>

    constructor ()
      ensures configs == CONFIGS && resultsByFormat == map[] && launched == []
    {
      configs := CONFIGS;
      resultsByFormat := map[];
      launched := [];
    }

    /**
     * `runConfig(format, configIndex, callback)`: fork the workers for configurations
     * `configIndex` onwards, one after another, appending each successful child's record to
     * `resultsByFormat[format]`. `outcomes[i]` is how the child for configuration `i` ends.
     */
    method RunConfig(format: string, configIndex: nat, outcomes: seq<ChildOutcome>)
      requires |outcomes| == |configs| && format in resultsByFormat
      modifies this
      ensures resultsByFormat ==
              old(resultsByFormat)[format := old(resultsByFormat)[format] + Collected(configs, outcomes, configIndex, |configs|)]
      ensures launched == old(launched) + Launches(configs, format, configIndex)
    {
      var start := if configIndex < |configs| then configIndex else |configs|;
      var i := start;
      ghost var records := old(resultsByFormat)[format];
      assert records + Collected(configs, outcomes, configIndex, i) == records;
      while i < |configs|
        invariant start <= i <= |configs| && (i < |configs| ==> configIndex <= i)
        invariant resultsByFormat == old(resultsByFormat)[format := records]
        invariant records == old(resultsByFormat)[format] + Collected(configs, outcomes, configIndex, i)
        invariant launched == old(launched) + Launches(configs, format, configIndex)[..i - start]
        decreases |configs| - i
      {
        launched := launched + [Fork(format, configs[i])];
        if Succeeded(outcomes[i]) {
          resultsByFormat := resultsByFormat[format := resultsByFormat[format] + [RecordOf(configs[i], outcomes[i])]];
          records := records + [RecordOf(configs[i], outcomes[i])];
        }
        CollectedStep(configs, outcomes, configIndex, i, old(resultsByFormat)[format]);
        i := i + 1;
      }
    }

    /**
     * `printResults(format, resultsByFormat[format])`: sort that format's records in place by
     * total threads, then report its table rows and its best record per level.
     */
    method PrintResults(format: string) returns (rep: FormatReport)
      requires format in resultsByFormat
      modifies this
      ensures resultsByFormat == old(resultsByFormat)[format := StableSort(old(resultsByFormat)[format], ByThreads)]
      ensures launched == old(launched)
      ensures rep == ReportOf(format, resultsByFormat[format])
    {
      resultsByFormat := resultsByFormat[format := StableSort(resultsByFormat[format], ByThreads)];
      rep := ReportOf(format, resultsByFormat[format]);
    }

    /**
     * The comparison printed last: for each level, the best record of each format, in
     * format order.
     */
    method CompareBest(results: map<string, seq<Record>>) returns (comparison: seq<seq<Option<Record>>>)
      requires forall f :: f in FORMATS ==> f in results
      ensures |comparison| == |PARALLELISM_LEVELS|
      ensures forall i :: 0 <= i < |PARALLELISM_LEVELS| ==>
                |comparison[i]| == |FORMATS| &&
                forall k :: 0 <= k < |FORMATS| ==> comparison[i][k] == Best(results[FORMATS[k]], PARALLELISM_LEVELS[i])
    {
      comparison := [];
      var i := 0;
      while i < |PARALLELISM_LEVELS|
        invariant 0 <= i <= |PARALLELISM_LEVELS| && |comparison| == i
        invariant forall i' :: 0 <= i' < i ==>
                    |comparison[i']| == |FORMATS| &&
                    forall k :: 0 <= k < |FORMATS| ==> comparison[i'][k] == Best(results[FORMATS[k]], PARALLELISM_LEVELS[i'])
      {
        var bests: seq<Option<Record>> := [];
        var k := 0;
        while k < |FORMATS|
          invariant 0 <= k <= |FORMATS| && |bests| == k
          invariant forall k' :: 0 <= k' < k ==> bests[k'] == Best(results[FORMATS[k']], PARALLELISM_LEVELS[i])
        {
          bests := bests + [Best(results[FORMATS[k]], PARALLELISM_LEVELS[i])];
          k := k + 1;
        }
        comparison := comparison + [bests];
        i := i + 1;
      }
    }

    /** The loop `for (const format of formats) printResults(format, resultsByFormat[format])`. */
    method PrintFormats() returns (perFormat: seq<FormatReport>)
      requires forall f :: f in FORMATS ==> f in resultsByFormat
      modifies this
      ensures launched == old(launched)
      ensures resultsByFormat == SortedUpTo(old(resultsByFormat), |FORMATS|)
      ensures |perFormat| == |FORMATS|
      ensures forall j :: 0 <= j < |FORMATS| ==>
                perFormat[j] == ReportOf(FORMATS[j], SortedUpTo(old(resultsByFormat), j + 1)[FORMATS[j]])
    {
      perFormat := [];
      var k := 0;
      while k < |FORMATS|
        invariant 0 <= k <= |FORMATS| && |perFormat| == k
        invariant launched == old(launched)
        invariant resultsByFormat == SortedUpTo(old(resultsByFormat), k)
        invariant forall j :: 0 <= j < k ==>
                    perFormat[j] == ReportOf(FORMATS[j], SortedUpTo(old(resultsByFormat), j + 1)[FORMATS[j]])
      {
        var rep := PrintResults(FORMATS[k]);
        perFormat := perFormat + [rep];
        k := k + 1;
      }
    }

    /**
     * `printAllResults`: print each format's report, which leaves every format's records
     * sorted by total threads, then for each level the best record of each format, taken
     * from those sorted records.
     */
    method PrintAllResults() returns (report: SweepReport)
      requires forall f :: f in FORMATS ==> f in resultsByFormat
      modifies this
      ensures launched == old(launched)
      ensures resultsByFormat.Keys == old(resultsByFormat).Keys
      ensures forall f :: f in resultsByFormat ==>
                resultsByFormat[f] == if f in FORMATS then StableSort(old(resultsByFormat)[f], ByThreads) else old(resultsByFormat)[f]
      ensures |report.perFormat| == |FORMATS|
      ensures forall k :: 0 <= k < |FORMATS| ==> report.perFormat[k] == ReportOf(FORMATS[k], resultsByFormat[FORMATS[k]])
      ensures |report.comparison| == |PARALLELISM_LEVELS|
      ensures forall i :: 0 <= i < |PARALLELISM_LEVELS| ==>
                |report.comparison[i]| == |FORMATS| &&
                forall k :: 0 <= k < |FORMATS| ==>
                  report.comparison[i][k] == Best(resultsByFormat[FORMATS[k]], PARALLELISM_LEVELS[i])
    {
      var perFormat := PrintFormats();
      forall f | f in resultsByFormat
        ensures resultsByFormat[f] == if f in FORMATS then StableSort(old(resultsByFormat)[f], ByThreads) else old(resultsByFormat)[f]
      {
        SortedAllAt(old(resultsByFormat), f);
      }
      forall j | 0 <= j < |FORMATS|
        ensures perFormat[j] == ReportOf(FORMATS[j], resultsByFormat[FORMATS[j]])
      {
        SortedAllAt(old(resultsByFormat), FORMATS[j]);
        SortedUpToAt(old(resultsByFormat), j + 1, FORMATS[j]);
        assert FORMATS[j] in FORMATS[..j + 1];
      }
      var comparison := CompareBest(resultsByFormat);
      report := SweepReport(perFormat, comparison);
    }

    /** One step of `runFormat`: reset the format's records, then run every configuration for it. */
    method RunFormat(format: string, outcomes: seq<ChildOutcome>)
      requires |outcomes| == |configs|
      modifies this
      ensures resultsByFormat == old(resultsByFormat)[format := Collected(configs, outcomes, 0, |configs|)]
      ensures launched == old(launched) + Launches(configs, format, 0)
    {
      resultsByFormat := resultsByFormat[format := []];
      RunConfig(format, 0, outcomes);
      assert [] + Collected(configs, outcomes, 0, |configs|) == Collected(configs, outcomes, 0, |configs|);
    }

    /**
     * `runFormat(0)` up to the final `printAllResults()`: for each format in turn, reset its
     * records, then run every configuration. `outcomes[k][i]` is how the child for
     * configuration `i` of format `k` ends.
     */
    method RunFormats(outcomes: seq<seq<ChildOutcome>>)
      requires |outcomes| == |FORMATS| && forall k :: 0 <= k < |FORMATS| ==> |outcomes[k]| == |configs|
      modifies this
      ensures launched == old(launched) + AllLaunches(configs, |FORMATS|)
      ensures resultsByFormat == CollectedUpTo(configs, old(resultsByFormat), outcomes, |FORMATS|)
    {
      var formatIndex := 0;
      while formatIndex < |FORMATS|
        invariant 0 <= formatIndex <= |FORMATS|
        invariant launched == old(launched) + AllLaunches(configs, formatIndex)
        invariant resultsByFormat == CollectedUpTo(configs, old(resultsByFormat), outcomes, formatIndex)
      {
        RunFormat(FORMATS[formatIndex], outcomes[formatIndex]);
        formatIndex := formatIndex + 1;
      }
    }

    /**
     * The whole sweep (`runFormat(0)`): for each format in turn, reset its records, run every
     * configuration, then print everything. `outcomes[k][i]` is how the child for
     * configuration `i` of format `k` ends.
     */
    method Run(outcomes: seq<seq<ChildOutcome>>) returns (report: SweepReport)
      requires |outcomes| == |FORMATS| && forall k :: 0 <= k < |FORMATS| ==> |outcomes[k]| == |configs|
      modifies this
      ensures launched == old(launched) + AllLaunches(configs, |FORMATS|)
      ensures forall f :: f in resultsByFormat <==> f in old(resultsByFormat) || f in FORMATS
      ensures forall f :: f in old(resultsByFormat) && f !in FORMATS ==> resultsByFormat[f] == old(resultsByFormat)[f]
      ensures forall k :: 0 <= k < |FORMATS| ==>
                FORMATS[k] in resultsByFormat &&
                resultsByFormat[FORMATS[k]] == StableSort(Collected(configs, outcomes[k], 0, |configs|), ByThreads)
      ensures |report.perFormat| == |FORMATS| && |report.comparison| == |PARALLELISM_LEVELS|
      ensures forall k :: 0 <= k < |FORMATS| ==> report.perFormat[k] == ReportOf(FORMATS[k], resultsByFormat[FORMATS[k]])
      ensures forall i :: 0 <= i < |PARALLELISM_LEVELS| ==>
                |report.comparison[i]| == |FORMATS| &&
                forall k :: 0 <= k < |FORMATS| ==>
                  report.comparison[i][k] == Best(resultsByFormat[FORMATS[k]], PARALLELISM_LEVELS[i])
    {
      RunFormats(outcomes);
      ghost var collected := resultsByFormat;
      forall f
        ensures f in collected <==> f in old(resultsByFormat) || f in FORMATS
        ensures f in old(resultsByFormat) && f !in FORMATS ==> collected[f] == old(resultsByFormat)[f]
      {
        CollectedAllAt(configs, old(resultsByFormat), outcomes, f);
      }
      CollectedAllAt(configs, old(resultsByFormat), outcomes, "");
      report := PrintAllResults();
      forall k | 0 <= k < |FORMATS|
        ensures resultsByFormat[FORMATS[k]] == StableSort(Collected(configs, outcomes[k], 0, |configs|), ByThreads)
      {
        assert FORMATS[k] in FORMATS && FORMATS[k] in collected;
      }
    }
  }
}
