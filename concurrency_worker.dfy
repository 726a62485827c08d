/**
 * The worker process the concurrency sweep forks for each (thread pool size,
 * concurrency) cell: it reads its settings from the environment, then, for each
 * parallelism level in turn, issues that many resize-and-encode operations at once
 * and records the mean of their completion times.
 */
module ConcurrencyWorker {
  import opened Common
  import opened Stats
  import JsInt
  import opened Encoders

  /** The parallelism levels, processed one after another in this order. */
  const PARALLELISM_LEVELS: seq<nat> := [1, 4, 8, 16, 32, 64]

  /** `parseInt(process.env.SHARP_CONCURRENCY, 10) || 1`: the value handed to `sharp.concurrency`. */
  function Concurrency(env: map<string, string>): (c: int)
    ensures c != 0
    ensures c == 1 || JsInt.EnvInt(env, "SHARP_CONCURRENCY") == Some(c)
    ensures JsInt.EnvInt(env, "SHARP_CONCURRENCY") in {None, Some(0)} ==> c == 1
    ensures forall n :: JsInt.EnvInt(env, "SHARP_CONCURRENCY") == Some(n) && n != 0 ==> c == n
  {
    match JsInt.EnvInt(env, "SHARP_CONCURRENCY")
    case Some(n) => if n != 0 then n else 1
    case None => 1
  }

  /** `process.env.BENCH_FORMAT || 'jpeg'`: a missing or empty variable selects jpeg. */
  function Format(env: map<string, string>): (f: string)
    ensures f != ""
    ensures f == "jpeg" || ("BENCH_FORMAT" in env && f == env["BENCH_FORMAT"])
    ensures ("BENCH_FORMAT" !in env || env["BENCH_FORMAT"] == "") ==> f == "jpeg"
    ensures "BENCH_FORMAT" in env && env["BENCH_FORMAT"] != "" ==> f == env["BENCH_FORMAT"]
  {
    if "BENCH_FORMAT" in env && env["BENCH_FORMAT"] != "" then env["BENCH_FORMAT"] else "jpeg"
  }

  /** The encoder step for the worker's format; jpeg also serves every unrecognised format. */
  function ApplyFormat(format: string): (e: EncodeOptions)
    ensures OutputFormat(e) == Selected(format)
  {
    match format
    case "avif" => Avif(55, 3)
    case "png" => Png(Some(75), None)
    case "webp" => Webp(75)
    case _ => Jpeg(75, true)
  }

  /**
   * The workload as seen by the worker: `op(p, id)` is the time in milliseconds from the
   * level's shared start to the completion of the `id`-th of the `p` operations issued at
   * level `p`, or `None` when that operation reports an error.
   */
  type Operation = (nat, nat) -> Option<nat>

  /** The completion times of level `p`, in operation order, or `None` when any of its operations fails. */
  function LevelTimes(op: Operation, p: nat): Option<seq<nat>> {
    if forall id :: 0 <= id < p ==> op(p, id).Some? then
      Some(seq(p, id requires 0 <= id < p => op(p, id).GetOr(0)))
    else
      None
  }

  /** The `means` object after levels `levels` have run, or `None` once a level has failed. */
  function MeansOver(levels: seq<nat>, op: Operation): Option<map<nat, real>>
    requires forall i :: 0 <= i < |levels| ==> levels[i] > 0
  {
    if levels == [] then Some(map[])
    else
      var p := levels[|levels| - 1];
      match (MeansOver(levels[..|levels| - 1], op), LevelTimes(op, p))
      case (Some(m), Some(times)) => Some(m[p := Mean(times)])
      case _ => None
  }

  /**
   * `async.times(p, ...)`: issues operations 0 .. p-1 and collects their completion
   * times in operation order; an error from any of them fails the level.
   */
  method RunLevel(op: Operation, p: nat) returns (times: Option<seq<nat>>)
    ensures times.Some? <==> forall id :: 0 <= id < p ==> op(p, id).Some?
    ensures times.Some? ==> |times.value| == p && forall id :: 0 <= id < p ==> times.value[id] == op(p, id).value
    ensures times == LevelTimes(op, p)
  {
    var collected: seq<nat> := [];
    var ok := true;
    var id := 0;
    while id < p
      invariant 0 <= id <= p && |collected| == id
      invariant ok <==> forall j :: 0 <= j < id ==> op(p, j).Some?
      invariant forall j :: 0 <= j < id ==> collected[j] == op(p, j).GetOr(0)
    {
      var outcome := op(p, id);
      if outcome.None? {
        ok := false;
      }
      collected := collected + [outcome.GetOr(0)];
      id := id + 1;
    }
    if ok {
      assert collected == seq(p, id requires 0 <= id < p => op(p, id).GetOr(0));
      times := Some(collected);
    } else {
      times := None;
    }
  }

  /**
   * `async.mapSeries` over the levels: each level runs only after the previous one has
   * finished and stored `means[p]`. A failed level trips `assert(!err)`, the uncaught
   * exception ends the process with status 1 and nothing is printed; otherwise the
   * record `{ means }` is printed. `started` lists the levels whose operations were issued.
   */
  method Run(op: Operation) returns (exit: Exit<map<nat, real>>, started: seq<nat>)
    ensures exit == match MeansOver(PARALLELISM_LEVELS, op)
                    case Some(means) => Printed(means)
                    case None => Exited(1)
    ensures exit.Printed? ==> started == PARALLELISM_LEVELS
    ensures exit.Exited? ==>
              started != [] && started <= PARALLELISM_LEVELS &&
              LevelTimes(op, started[|started| - 1]).None? &&
              forall i :: 0 <= i < |started| - 1 ==> LevelTimes(op, started[i]).Some?
  {
    var means: map<nat, real> := map[];
    started := [];
    var i := 0;
    while i < |PARALLELISM_LEVELS|
      invariant 0 <= i <= |PARALLELISM_LEVELS|
      invariant started == PARALLELISM_LEVELS[..i]
      invariant MeansOver(started, op) == Some(means)
      invariant forall j :: 0 <= j < i ==> LevelTimes(op, started[j]).Some?
    {
      var p := PARALLELISM_LEVELS[i];
      started := started + [p];
      var times := RunLevel(op, p);
      assert started[..|started| - 1] == PARALLELISM_LEVELS[..i];
      if times.None? {
        MeansOverFailsAfter(started, PARALLELISM_LEVELS, op);
        return Exited(1), started;
      }
      means := means[p := Mean(times.value)];
      i := i + 1;
    }
    assert started == PARALLELISM_LEVELS;
    exit := Printed(means);
  }

  /** Once a level fails, no later level can bring the record back. */
  lemma {:induction false} MeansOverFailsAfter(prefix: seq<nat>, levels: seq<nat>, op: Operation)
    requires forall i :: 0 <= i < |levels| ==> levels[i] > 0
    requires prefix <= levels && MeansOver(prefix, op) == None
    ensures MeansOver(levels, op) == None
    decreases |levels|
  {
    if |levels| > |prefix| {
      assert prefix <= levels[..|levels| - 1];
      MeansOverFailsAfter(prefix, levels[..|levels| - 1], op);
    } else {
      assert prefix == levels;
    }
  }

  /**
   * The record succeeds exactly when every level's operations all succeed; its keys are
   * then exactly the levels, and each level's entry is the mean of that level's times.
   */
  lemma {:induction false} MeansOverSpec(levels: seq<nat>, op: Operation)
    requires forall i :: 0 <= i < |levels| ==> levels[i] > 0
    ensures MeansOver(levels, op).Some? <==> forall i :: 0 <= i < |levels| ==> LevelTimes(op, levels[i]).Some?
    ensures MeansOver(levels, op).Some? ==>
              var means := MeansOver(levels, op).value;
              (forall p :: p in means <==> p in levels) &&
              forall p :: p in means ==> LevelTimes(op, p).Some? && means[p] == Mean(LevelTimes(op, p).value)
  {
    if levels != [] {
      var init := levels[..|levels| - 1];
      MeansOverSpec(init, op);
      assert forall p :: p in levels <==> p in init || p == levels[|levels| - 1];
    }
  }

  /**
   * What a printed record promises: its `means` has exactly the keys 1, 4, 8, 16, 32 and 64;
   * level `p` issued exactly `p` operations, all of them succeeded, and `means[p]` is their
   * summed completion time divided by `p`, which lies between the level's fastest and
   * slowest completion.
   */
  lemma PrintedRecord(op: Operation)
    ensures MeansOver(PARALLELISM_LEVELS, op).Some? <==>
              forall p, id :: p in PARALLELISM_LEVELS && 0 <= id < p ==> op(p, id).Some?
    ensures MeansOver(PARALLELISM_LEVELS, op).Some? ==>
              var means := MeansOver(PARALLELISM_LEVELS, op).value;
              (forall p :: p in means <==> p in PARALLELISM_LEVELS) &&
              forall p :: p in means ==>
                var times := LevelTimes(op, p).value;
                |times| == p && means[p] == Sum(times) as real / p as real &&
                Min(times) as real <= means[p] <= Max(times) as real
  {
    RecordOver(PARALLELISM_LEVELS, op);
  }

  /** `PrintedRecord` for any list of positive levels. */
  lemma RecordOver(levels: seq<nat>, op: Operation)
    requires forall i :: 0 <= i < |levels| ==> levels[i] > 0
    ensures MeansOver(levels, op).Some? <==>
              forall p, id :: p in levels && 0 <= id < p ==> op(p, id).Some?
    ensures MeansOver(levels, op).Some? ==>
              var means := MeansOver(levels, op).value;
              (forall p :: p in means <==> p in levels) &&
              forall p :: p in means ==>
                var times := LevelTimes(op, p).value;
                |times| == p && means[p] == Sum(times) as real / p as real &&
                Min(times) as real <= means[p] <= Max(times) as real
  {
    MeansOverSpec(levels, op);
    if MeansOver(levels, op).Some? {
      var means := MeansOver(levels, op).value;
      forall p | p in means
        ensures Min(LevelTimes(op, p).value) as real <= means[p] <= Max(LevelTimes(op, p).value) as real
      {
        MeanWithinRange(LevelTimes(op, p).value);
      }
    }
  }
}
