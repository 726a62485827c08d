/**
 * The bounded-demand benchmark: a fixed mix of resize-and-encode tasks over three
 * size classes and three formats, run through a pool of at most `maxConcurrent`
 * in-flight tasks, reporting the mean elapsed time per (size, format) pair.
 */
module LargeImageWorker {
  import opened Common
  import opened Stats
  import JsInt
  import opened Encoders

  datatype SizeClass = Small | Medium | Large

  /** An `imageSizes` entry: the bounding box to resize into and the declared share of requests. */
  datatype SizeSpec = SizeSpec(width: nat, height: nat, weight: nat)

  /** The `imageSizes` table. */
  function ImageSize(size: SizeClass): SizeSpec {
    match size
    case Small => SizeSpec(400, 300, 70)
    case Medium => SizeSpec(1200, 900, 25)
    case Large => SizeSpec(2400, 1800, 5)
  }

  /** The property name of a size class in `imageSizes`. */
  function SizeName(size: SizeClass): string {
    match size
    case Small => "small"
    case Medium => "medium"
    case Large => "large"
  }

  /** `Object.keys(imageSizes)`, in declaration order. */
  const SIZE_CLASSES: seq<SizeClass> := [Small, Medium, Large]

  const FORMATS: seq<string> := ["jpeg", "webp", "avif"]

  /** How many times each (size, format) pair is queued. */
  const REPETITIONS: nat := 4

  /** The encoder step for a format, with the `qualitySettings` options; jpeg also serves every unrecognised format. */
  function ApplyFormat(format: string): (e: EncodeOptions)
    ensures OutputFormat(e) == Selected(format)
  {
    match format
    case "avif" => Avif(60, 4)
    case "png" => Png(None, Some(6))
    case "webp" => Webp(80)
    case _ => Jpeg(80, true)
  }

  /** `parseInt(process.env.MAX_CONCURRENT, 10) || 4`: the pool's in-flight limit. */
  function MaxConcurrent(env: map<string, string>): (n: int)
    ensures n != 0
    ensures n == 4 || JsInt.EnvInt(env, "MAX_CONCURRENT") == Some(n)
    ensures JsInt.EnvInt(env, "MAX_CONCURRENT") in {None, Some(0)} ==> n == 4
    ensures forall m :: JsInt.EnvInt(env, "MAX_CONCURRENT") == Some(m) && m != 0 ==> n == m
  {
    match JsInt.EnvInt(env, "MAX_CONCURRENT")
    case Some(n) => if n != 0 then n else 4
    case None => 4
  }

  /** `MAX_CONCURRENT` set to the decimal string of a positive `m` bounds the pool at `m`; set to "0", it falls back to 4. */
  lemma MaxConcurrentDecimal(env: map<string, string>, m: nat)
    requires "MAX_CONCURRENT" in env && env["MAX_CONCURRENT"] == JsInt.DecimalString(m)
    ensures MaxConcurrent(env) == if m == 0 then 4 else m
  {
    JsInt.EnvIntDecimal(env, "MAX_CONCURRENT", m);
  }

  /**
   * sharp's concurrency after start-up: `sharp.concurrency(n)` is called only when
   * `SHARP_CONCURRENCY` parses to a number, and then with that number, 0 included.
   */
  function SharpConcurrency(env: map<string, string>, current: int): (c: int)
    ensures JsInt.EnvInt(env, "SHARP_CONCURRENCY").None? ==> c == current
    ensures JsInt.EnvInt(env, "SHARP_CONCURRENCY").Some? ==> c == JsInt.EnvInt(env, "SHARP_CONCURRENCY").value
  {
    match JsInt.EnvInt(env, "SHARP_CONCURRENCY")
    case Some(n) => n
    case None => current
  }

  /** `SHARP_CONCURRENCY=0` reaches sharp as 0 (sharp's own "use every core"), not as a default. */
  lemma ZeroConcurrencyPassedThrough(env: map<string, string>, current: int)
    requires "SHARP_CONCURRENCY" in env && env["SHARP_CONCURRENCY"] == "0"
    ensures SharpConcurrency(env, current) == 0
  {
    JsInt.ParseDecimal(0);
    assert JsInt.DecimalString(0) == "0";
  }

  datatype Task = Task(size: SizeClass, format: string)

  /** The `times` key of a task: `${size}_${format}`. */
  function TaskKey(t: Task): string {
    SizeName(t.size) + "_" + t.format
  }

  function Replicate(t: Task, n: nat): (r: seq<Task>)
    ensures |r| == n && forall i :: 0 <= i < n ==> r[i] == t
  {
    seq(n, _ => t)
  }

  /** The tasks queued for one size: each format in turn, repeated `REPETITIONS` times. */
  function SizeTasks(size: SizeClass, formats: seq<string>): (tasks: seq<Task>)
    ensures |tasks| == REPETITIONS * |formats|
  {
    if formats == [] then []
    else SizeTasks(size, formats[..|formats| - 1]) + Replicate(Task(size, formats[|formats| - 1]), REPETITIONS)
  }

  /** The task list built by the three nested loops: size-major, then format, then repetition. */
  function TaskList(sizes: seq<SizeClass>, formats: seq<string>): (tasks: seq<Task>)
    ensures |tasks| == |sizes| * (REPETITIONS * |formats|)
  {
    if sizes == [] then []
    else TaskList(sizes[..|sizes| - 1], formats) + SizeTasks(sizes[|sizes| - 1], formats)
  }

  /** The nested `for` loops that fill `tasks` with `push`. */
  method GenerateTasks() returns (tasks: seq<Task>)
    ensures tasks == TaskList(SIZE_CLASSES, FORMATS)
  {
    tasks := [];
    var s := 0;
    while s < |SIZE_CLASSES|
      invariant 0 <= s <= |SIZE_CLASSES|
      invariant tasks == TaskList(SIZE_CLASSES[..s], FORMATS)
    {
      var size := SIZE_CLASSES[s];
      var f := 0;
      while f < |FORMATS|
        invariant 0 <= f <= |FORMATS|
        invariant tasks == TaskList(SIZE_CLASSES[..s], FORMATS) + SizeTasks(size, FORMATS[..f])
      {
        var format := FORMATS[f];
        var i := 0;
        while i < REPETITIONS
          invariant 0 <= i <= REPETITIONS
          invariant tasks == TaskList(SIZE_CLASSES[..s], FORMATS) + SizeTasks(size, FORMATS[..f]) + Replicate(Task(size, format), i)
        {
          tasks := tasks + [Task(size, format)];
          i := i + 1;
        }
        assert FORMATS[..f + 1][..f] == FORMATS[..f];
        f := f + 1;
      }
      assert FORMATS[..f] == FORMATS;
      assert SIZE_CLASSES[..s + 1][..s] == SIZE_CLASSES[..s];
      s := s + 1;
    }
    assert SIZE_CLASSES[..s] == SIZE_CLASSES;
  }

  lemma {:induction false} SizeTasksAt(size: SizeClass, formats: seq<string>)
    ensures |SizeTasks(size, formats)| == REPETITIONS * |formats|
    ensures forall j :: 0 <= j < |SizeTasks(size, formats)| ==>
              SizeTasks(size, formats)[j] == Task(size, formats[j / REPETITIONS])
  {
    if formats != [] {
      var init := formats[..|formats| - 1];
      SizeTasksAt(size, init);
      var r := SizeTasks(size, formats);
      forall j | 0 <= j < |r| ensures r[j] == Task(size, formats[j / REPETITIONS]) {
        if j >= REPETITIONS * |init| {
          assert j / REPETITIONS == |init|;
        } else {
          assert formats[j / REPETITIONS] == init[j / REPETITIONS];
        }
      }
    }
  }

  lemma {:induction false} TaskListAt(sizes: seq<SizeClass>)
    ensures |TaskList(sizes, FORMATS)| == 12 * |sizes|
    ensures forall i :: 0 <= i < |TaskList(sizes, FORMATS)| ==>
              TaskList(sizes, FORMATS)[i] == Task(sizes[i / 12], FORMATS[i % 12 / REPETITIONS])
  {
    if sizes != [] {
      var init := sizes[..|sizes| - 1];
      var last := sizes[|sizes| - 1];
      TaskListAt(init);
      SizeTasksAt(last, FORMATS);
      var r := TaskList(sizes, FORMATS);
      forall i | 0 <= i < |r| ensures r[i] == Task(sizes[i / 12], FORMATS[i % 12 / REPETITIONS]) {
        if i >= 12 * |init| {
          assert i / 12 == |init| && i % 12 == i - 12 * |init|;
        } else {
          assert i / 12 < |init|;
        }
      }
    }
  }

  /**
   * The generated list has 3 x 3 x 4 = 36 tasks: position `i` holds size class `i / 12`
   * and format `(i % 12) / 4`, so sizes run small, medium, large, formats jpeg, webp,
   * avif within a size, and each pair occupies four consecutive positions.
   */
  lemma TaskOrder()
    ensures |TaskList(SIZE_CLASSES, FORMATS)| == 36
    ensures forall i :: 0 <= i < 36 ==> TaskList(SIZE_CLASSES, FORMATS)[i] == Task(SIZE_CLASSES[i / 12], FORMATS[i % 12 / 4])
  {
    TaskListAt(SIZE_CLASSES);
  }

  lemma {:induction false} SizeTasksCount(size: SizeClass, formats: seq<string>, t: Task)
    requires forall i, j :: 0 <= i < j < |formats| ==> formats[i] != formats[j]
    ensures multiset(SizeTasks(size, formats))[t] == if t.size == size && t.format in formats then REPETITIONS else 0
  {
    if formats != [] {
      var init, last := formats[..|formats| - 1], formats[|formats| - 1];
      SizeTasksCount(size, init, t);
      var copies := Replicate(Task(size, last), REPETITIONS);
      assert multiset(copies)[t] == if t == Task(size, last) then REPETITIONS else 0 by {
        assert copies == [Task(size, last), Task(size, last), Task(size, last), Task(size, last)];
      }
      assert t.format in formats <==> t.format in init || t.format == last;
      assert last !in init;
    }
  }

  lemma FormatsDistinct()
    ensures forall i, j :: 0 <= i < j < |FORMATS| ==> FORMATS[i] != FORMATS[j]
  {
    assert FORMATS[0][0] == 'j' && FORMATS[1][0] == 'w' && FORMATS[2][0] == 'a';
  }

  lemma {:induction false} TaskListCount(sizes: seq<SizeClass>, t: Task)
    requires forall i, j :: 0 <= i < j < |sizes| ==> sizes[i] != sizes[j]
    ensures multiset(TaskList(sizes, FORMATS))[t] == if t.size in sizes && t.format in FORMATS then REPETITIONS else 0
  {
    if sizes != [] {
      var init, last := sizes[..|sizes| - 1], sizes[|sizes| - 1];
      TaskListCount(init, t);
      FormatsDistinct();
      SizeTasksCount(last, FORMATS, t);
      assert multiset(TaskList(sizes, FORMATS)) == multiset(TaskList(init, FORMATS)) + multiset(SizeTasks(last, FORMATS));
      assert t.size in sizes <==> t.size in init || t.size == last;
      assert last !in init;
    }
  }

  /**
   * The declared weights (70/25/5) play no part: every (size, format) pair is queued
   * exactly four times, and nothing else is queued.
   */
  lemma TaskCounts(t: Task)
    ensures multiset(TaskList(SIZE_CLASSES, FORMATS))[t] == if t.size in SIZE_CLASSES && t.format in FORMATS then 4 else 0
  {
    TaskListCount(SIZE_CLASSES, t);
  }

  /**
   * The size classes carry different declared weights in `imageSizes`, yet every size class
   * is queued as often as every other for each format.
   */
  lemma WeightsIgnored(a: SizeClass, b: SizeClass, format: string)
    ensures a != b ==> ImageSize(a).weight != ImageSize(b).weight
    ensures multiset(TaskList(SIZE_CLASSES, FORMATS))[Task(a, format)] ==
            multiset(TaskList(SIZE_CLASSES, FORMATS))[Task(b, format)]
  {
    TaskCounts(Task(a, format));
    TaskCounts(Task(b, format));
    assert a in SIZE_CLASSES && b in SIZE_CLASSES;
  }

  /** Different tasks get different `times` keys: the size names start with different letters. */
  lemma KeyInjective(a: Task, b: Task)
    ensures a != b ==> TaskKey(a) != TaskKey(b)
  {
    if a.size != b.size {
      assert TaskKey(a)[0] == SizeName(a.size)[0] && TaskKey(b)[0] == SizeName(b.size)[0];
    } else if a.format != b.format {
      var n := |SizeName(a.size)| + 1;
      assert TaskKey(a)[n..] == a.format && TaskKey(b)[n..] == b.format;
    }
  }

  /** `times[key]` with `v` pushed onto it, the list being created on the key's first push. */
  function Pushed(times: map<string, seq<nat>>, key: string, v: nat): map<string, seq<nat>> {
    times[key := (if key in times then times[key] else []) + [v]]
  }

  /** A push adds `key` if it was missing, appends `v` to its list and leaves every other key's list alone. */
  lemma PushedAt(times: map<string, seq<nat>>, key: string, v: nat)
    ensures Pushed(times, key, v).Keys == times.Keys + {key}
    ensures Pushed(times, key, v)[key] == (if key in times then times[key] else []) + [v]
    ensures forall other :: other in times && other != key ==> Pushed(times, key, v)[other] == times[other]
  {
  }

  /** The `times` dictionary after each of `tasks` has pushed its elapsed time, in task order. */
  function Grouped(tasks: seq<Task>, elapsed: seq<nat>): map<string, seq<nat>>
    requires |tasks| == |elapsed|
  {
    if tasks == [] then map[]
    else
      var n := |tasks| - 1;
      Pushed(Grouped(tasks[..n], elapsed[..n]), TaskKey(tasks[n]), elapsed[n])
  }

  /** The elapsed times of the tasks whose key is `key`, in task order. */
  function TimesOf(tasks: seq<Task>, elapsed: seq<nat>, key: string): seq<nat>
    requires |tasks| == |elapsed|
  {
    if tasks == [] then []
    else
      var n := |tasks| - 1;
      TimesOf(tasks[..n], elapsed[..n], key) + if TaskKey(tasks[n]) == key then [elapsed[n]] else []
  }

  /** Some task of `tasks` has key `key`. */
  predicate Ran(tasks: seq<Task>, key: string) {
    exists i :: 0 <= i < |tasks| && TaskKey(tasks[i]) == key
  }

  lemma RanExtended(tasks: seq<Task>, key: string)
    requires tasks != []
    ensures Ran(tasks, key) <==> Ran(tasks[..|tasks| - 1], key) || TaskKey(tasks[|tasks| - 1]) == key
  {
    var n := |tasks| - 1;
    RanFromPrefix(tasks, n, key);
    if Ran(tasks, key) {
      RanSplit(tasks, key);
    }
  }

  /** A key that ran among the first `n` tasks ran among all of them. */
  lemma RanFromPrefix(tasks: seq<Task>, n: nat, key: string)
    requires n <= |tasks|
    ensures Ran(tasks[..n], key) ==> Ran(tasks, key)
  {
    if Ran(tasks[..n], key) {
      var i :| 0 <= i < n && TaskKey(tasks[..n][i]) == key;
      assert tasks[..n][i] == tasks[i];
    }
  }

  /** A key that ran ran either before the last task or as the last task. */
  lemma RanSplit(tasks: seq<Task>, key: string)
    requires tasks != [] && Ran(tasks, key)
    ensures Ran(tasks[..|tasks| - 1], key) || TaskKey(tasks[|tasks| - 1]) == key
  {
    var n := |tasks| - 1;
    var i :| 0 <= i < |tasks| && TaskKey(tasks[i]) == key;
    if i < n {
      assert tasks[..n][i] == tasks[i];
    }
  }

  /**
   * `times` has a key exactly for the pairs that ran; that key's list is non-empty and
   * holds that pair's elapsed times in task order.
   */
  lemma {:induction false} GroupedAt(tasks: seq<Task>, elapsed: seq<nat>, key: string)
    requires |tasks| == |elapsed|
    ensures key in Grouped(tasks, elapsed) <==> Ran(tasks, key)
    ensures key in Grouped(tasks, elapsed) ==> Grouped(tasks, elapsed)[key] == TimesOf(tasks, elapsed, key) != []
  {
    if tasks != [] {
      var n := |tasks| - 1;
      var init, initElapsed := tasks[..n], elapsed[..n];
      GroupedAt(init, initElapsed, key);
      RanExtended(tasks, key);
      if !Ran(init, key) {
        TimesOfAbsent(init, initElapsed, key);
      }
    }
  }

  lemma {:induction false} TimesOfAbsent(tasks: seq<Task>, elapsed: seq<nat>, key: string)
    requires |tasks| == |elapsed|
    requires !Ran(tasks, key)
    ensures TimesOf(tasks, elapsed, key) == []
  {
    if tasks != [] {
      var n := |tasks| - 1;
      RanExtended(tasks, key);
      TimesOfAbsent(tasks[..n], elapsed[..n], key);
    }
  }

  /** A task's key collects one time per occurrence of that task in the list. */
  lemma {:induction false} TimesOfLength(tasks: seq<Task>, elapsed: seq<nat>, t: Task)
    requires |tasks| == |elapsed|
    ensures |TimesOf(tasks, elapsed, TaskKey(t))| == multiset(tasks)[t]
  {
    if tasks != [] {
      var n := |tasks| - 1;
      var init, last := tasks[..n], tasks[n];
      TimesOfLength(init, elapsed[..n], t);
      KeyInjective(last, t);
      assert tasks == init + [last];
      assert multiset(tasks)[t] == multiset(init)[t] + if last == t then 1 else 0;
    }
  }

  /** Pushing more times only adds keys and appends to the lists already there. */
  lemma {:induction false} GroupedGrows(tasks: seq<Task>, elapsed: seq<nat>, n: nat)
    requires |tasks| == |elapsed| && n <= |tasks|
    ensures forall key :: key in Grouped(tasks[..n], elapsed[..n]) ==>
              key in Grouped(tasks, elapsed) && Grouped(tasks[..n], elapsed[..n])[key] <= Grouped(tasks, elapsed)[key]
    decreases |tasks| - n
  {
    if n < |tasks| {
      GroupedGrows(tasks, elapsed, n + 1);
      assert tasks[..n + 1][..n] == tasks[..n] && elapsed[..n + 1][..n] == elapsed[..n];
    } else {
      assert tasks[..n] == tasks && elapsed[..n] == elapsed;
    }
  }

  /** Grouping a list that holds each benchmarked pair four times and nothing else. */
  lemma GroupedFourEach(tasks: seq<Task>, values: seq<nat>, key: string)
    requires |tasks| == |values|
    requires forall t :: multiset(tasks)[t] == if t.size in SIZE_CLASSES && t.format in FORMATS then 4 else 0
    ensures var times := Grouped(tasks, values);
            (key in times <==> exists t: Task :: t.size in SIZE_CLASSES && t.format in FORMATS && TaskKey(t) == key) &&
            (key in times ==> |times[key]| == 4)
  {
    GroupedAt(tasks, values, key);
    if exists t: Task :: t.size in SIZE_CLASSES && t.format in FORMATS && TaskKey(t) == key {
      var t: Task :| t.size in SIZE_CLASSES && t.format in FORMATS && TaskKey(t) == key;
      assert t in multiset(tasks);
      var i :| 0 <= i < |tasks| && tasks[i] == t;
      assert TaskKey(tasks[i]) == key;
    }
    if key in Grouped(tasks, values) {
      var i :| 0 <= i < |tasks| && TaskKey(tasks[i]) == key;
      var t := tasks[i];
      assert t in multiset(tasks);
      TimesOfLength(tasks, values, t);
    }
  }

  /**
   * When every task succeeds, `times` has exactly one key `${size}_${format}` per pair
   * of the benchmark, nine in all, and each key holds four times.
   */
  lemma AllTasksGrouped(values: seq<nat>, key: string)
    requires |values| == 36
    ensures var times := Grouped(TaskList(SIZE_CLASSES, FORMATS), values);
            (key in times <==> exists t: Task :: t.size in SIZE_CLASSES && t.format in FORMATS && TaskKey(t) == key) &&
            (key in times ==> |times[key]| == 4)
  {
    var tasks := TaskList(SIZE_CLASSES, FORMATS);
    TaskListAt(SIZE_CLASSES);
    forall t: Task ensures multiset(tasks)[t] == if t.size in SIZE_CLASSES && t.format in FORMATS then 4 else 0 {
      TaskCounts(t);
    }
    GroupedFourEach(tasks, values, key);
  }

  /**
   * The loop over `Object.entries(times)`: each key's entry in `meanTimes` is the sum of its
   * times divided by their count, so it lies between the key's fastest and slowest time.
   */
  method MeanTimes(times: map<string, seq<nat>>) returns (means: map<string, real>)
    requires forall key :: key in times ==> times[key] != []
    ensures means.Keys == times.Keys
    ensures forall key :: key in means ==>
              means[key] == Sum(times[key]) as real / |times[key]| as real &&
              Min(times[key]) as real <= means[key] <= Max(times[key]) as real
  {
    means := map[];
    var remaining := times.Keys;
    while remaining != {}
      invariant remaining <= times.Keys
      invariant means.Keys == times.Keys - remaining
      invariant forall key :: key in means ==>
                  means[key] == Sum(times[key]) as real / |times[key]| as real &&
                  Min(times[key]) as real <= means[key] <= Max(times[key]) as real
      decreases remaining
    {
      var key :| key in remaining;
      MeanWithinRange(times[key]);
      means := means[key := Mean(times[key])];
      remaining := remaining - {key};
    }
  }

  /** The JSON record printed on success. */
  datatype Summary = Summary(times: map<string, real>, totalTime: nat, maxConcurrent: int)

  /** The elapsed times of a run in which every task succeeded. */
  function Values(elapsed: seq<Option<nat>>): (values: seq<nat>)
    ensures |values| == |elapsed|
    ensures forall i :: 0 <= i < |elapsed| && elapsed[i].Some? ==> values[i] == elapsed[i].value
  {
    seq(|elapsed|, i requires 0 <= i < |elapsed| => elapsed[i].GetOr(0))
  }

  /** `if (!times[key]) times[key] = []; times[key].push(v)`. */
  method Push(times: map<string, seq<nat>>, key: string, v: nat) returns (pushed: map<string, seq<nat>>)
    ensures pushed == Pushed(times, key, v)
  {
    pushed := times;
    if key !in pushed {
      pushed := pushed[key := []];
    }
    pushed := pushed[key := pushed[key] + [v]];
  }

  /** One more push onto `times`. */
  lemma GroupedSnoc(tasks: seq<Task>, values: seq<nat>, t: Task, v: nat)
    requires |tasks| == |values|
    ensures Grouped(tasks + [t], values + [v]) == Pushed(Grouped(tasks, values), TaskKey(t), v)
  {
    assert (tasks + [t])[..|tasks|] == tasks;
    assert (values + [v])[..|values|] == values;
  }

  /** The times of a run in which every task succeeded are exactly its `Values`. */
  lemma AllValues(elapsed: seq<Option<nat>>, values: seq<nat>)
    requires |values| == |elapsed|
    requires forall j :: 0 <= j < |elapsed| ==> elapsed[j] == Some(values[j])
    ensures values == Values(elapsed)
  {
  }

  /**
   * `async.eachLimit(tasks, maxConcurrent, ...)`: each task's elapsed time is pushed onto
   * `times[key]`, the list being created on the key's first push; the first failure
   * rejects the whole loop.
   */
  method CollectTimes(tasks: seq<Task>, elapsed: seq<Option<nat>>) returns (times: Option<map<string, seq<nat>>>)
    requires |tasks| == |elapsed|
    ensures times.None? <==> exists i :: 0 <= i < |elapsed| && elapsed[i].None?
    ensures times.Some? ==> times.value == Grouped(tasks, Values(elapsed))
  {
    var grouped: map<string, seq<nat>> := map[];
    var values: seq<nat> := [];
    ghost var done: seq<Task> := [];
    var i := 0;
    while i < |tasks|
      invariant 0 <= i <= |tasks| && |values| == i && |done| == i
      invariant forall j :: 0 <= j < i ==> done[j] == tasks[j] && elapsed[j] == Some(values[j])
      invariant grouped == Grouped(done, values)
    {
      if elapsed[i].None? {
        assert 0 <= i < |elapsed| && elapsed[i].None?;
        return None;
      }
      GroupedSnoc(done, values, tasks[i], elapsed[i].value);
      grouped := Push(grouped, TaskKey(tasks[i]), elapsed[i].value);
      values := values + [elapsed[i].value];
      done := done + [tasks[i]];
      i := i + 1;
    }
    assert done == tasks;
    AllValues(elapsed, values);
    times := Some(grouped);
  }

  /**
   * `runBenchmark`: generate the tasks, run them, then average per key. `elapsed[i]` is
   * the outcome of task `i` (`None` when its pipeline reports an error) and `totalTime`
   * the wall-clock time of the whole run. Any failure rejects the run: nothing is
   * printed and the process exits with status 1.
   */
  method RunBenchmark(env: map<string, string>, elapsed: seq<Option<nat>>, totalTime: nat) returns (exit: Exit<Summary>)
    requires |elapsed| == 36
    ensures exit.Exited? <==> exists i :: 0 <= i < |elapsed| && elapsed[i].None?
    ensures exit.Exited? ==> exit.status == 1
    ensures exit.Printed? ==>
              var times := Grouped(TaskList(SIZE_CLASSES, FORMATS), Values(elapsed));
              exit.output.totalTime == totalTime && exit.output.maxConcurrent == MaxConcurrent(env) &&
              exit.output.times.Keys == times.Keys &&
              forall key :: key in times ==> times[key] != [] && exit.output.times[key] == Mean(times[key])
  {
    var tasks := GenerateTasks();
    var times := CollectTimes(tasks, elapsed);
    if times.None? {
      return Exited(1);
    }
    forall key | key in times.value ensures times.value[key] != [] {
      GroupedAt(tasks, Values(elapsed), key);
    }
    var means := MeanTimes(times.value);
    exit := Printed(Summary(means, totalTime, MaxConcurrent(env)));
  }
}
