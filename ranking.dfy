/**
 * The read-only part of the concurrency sweep's report: ordering the records of a
 * format by total threads, rendering one cell per parallelism level, and choosing
 * the best configuration per level.
 */
module Ranking {
  import opened Common

  /** The parallelism levels the report has columns for, in column order. */
  const PARALLELISM_LEVELS: seq<nat> := [1, 4, 8, 16, 32, 64]

  /** One stored result: `{ uvSize, concurrency, ...data }` where `data` is the worker's `{ means }`. */
  datatype Record = Record(uvSize: nat, concurrency: nat, means: map<nat, real>)

  /** The "Threads" column: `uvSize * concurrency`. */
  function Threads(r: Record): nat {
    r.uvSize * r.concurrency
  }

  /** `r.means[p]` is truthy: the level is present and its mean is not zero. */
  predicate HasMean(r: Record, p: nat) {
    p in r.means && r.means[p] != 0.0
  }

  /** The two orders the report sorts by: total threads, or the mean at one level. */
  datatype SortKey = ByThreads | ByMeanAt(level: nat)

  function Key(k: SortKey, r: Record): real {
    match k
    case ByThreads => Threads(r) as real
    case ByMeanAt(p) => if p in r.means then r.means[p] else 0.0
  }

  predicate SortedBy(s: seq<Record>, k: SortKey) {
    forall i, j :: 0 <= i < j < |s| ==> Key(k, s[i]) <= Key(k, s[j])
  }

  /** The elements of `s` whose key is `v`, in their order in `s`. */
  function WithKey(s: seq<Record>, k: SortKey, v: real): seq<Record> {
    if s == [] then []
    else (if Key(k, s[0]) == v then [s[0]] else []) + WithKey(s[1..], k, v)
  }

  /** Places `x` after every element of `sorted` whose key does not exceed its own. */
  function Insert(sorted: seq<Record>, x: Record, k: SortKey): seq<Record> {
    if sorted == [] then [x]
    else if Key(k, sorted[0]) <= Key(k, x) then [sorted[0]] + Insert(sorted[1..], x, k)
    else [x] + sorted
  }

  /**
   * `Array.prototype.sort` with the comparator `(a, b) => key(a) - key(b)`. The
   * JavaScript sort is stable, so the model is a stable insertion sort.
   */
  function StableSort(s: seq<Record>, k: SortKey): seq<Record> {
    if s == [] then [] else Insert(StableSort(s[..|s| - 1], k), s[|s| - 1], k)
  }

  lemma {:induction false} WithKeyConcat(a: seq<Record>, b: seq<Record>, k: SortKey, v: real)
    ensures WithKey(a + b, k, v) == WithKey(a, k, v) + WithKey(b, k, v)
  {
    if a == [] {
      assert a + b == b;
    } else {
      WithKeyConcat(a[1..], b, k, v);
      assert a + b == [a[0]] + (a[1..] + b);
      assert a == [a[0]] + a[1..];
      WithKeyConsBoth(a[0], a[1..] + b, a[1..], WithKey(b, k, v), k, v);
    }
  }

  lemma {:induction false} WithKeyNone(s: seq<Record>, k: SortKey, v: real)
    requires forall i :: 0 <= i < |s| ==> Key(k, s[i]) != v
    ensures WithKey(s, k, v) == []
  {
    if s != [] {
      WithKeyNone(s[1..], k, v);
    }
  }

  /** Inserting adds exactly `x`. */
  lemma {:induction false} InsertPermutes(t: seq<Record>, x: Record, k: SortKey)
    ensures |Insert(t, x, k)| == |t| + 1
    ensures multiset(Insert(t, x, k)) == multiset(t) + multiset{x}
  {
    if t != [] && Key(k, t[0]) <= Key(k, x) {
      InsertPermutes(t[1..], x, k);
      assert t == [t[0]] + t[1..];
    }
  }

  /** A lower bound on the keys of `t` and of `x` bounds the keys of `Insert(t, x, k)`. */
  lemma {:induction false} InsertAtLeast(t: seq<Record>, x: Record, k: SortKey, lo: real)
    requires forall i :: 0 <= i < |t| ==> lo <= Key(k, t[i])
    requires lo <= Key(k, x)
    ensures forall i :: 0 <= i < |Insert(t, x, k)| ==> lo <= Key(k, Insert(t, x, k)[i])
  {
    if t != [] && Key(k, t[0]) <= Key(k, x) {
      var rest := Insert(t[1..], x, k);
      InsertAtLeast(t[1..], x, k, lo);
      assert Insert(t, x, k) == [t[0]] + rest;
    }
  }

  /** Inserting into a sorted list keeps it sorted. */
  lemma {:induction false} InsertSorted(t: seq<Record>, x: Record, k: SortKey)
    requires SortedBy(t, k)
    ensures SortedBy(Insert(t, x, k), k)
  {
    if t != [] && Key(k, t[0]) <= Key(k, x) {
      var rest := Insert(t[1..], x, k);
      InsertSorted(t[1..], x, k);
      InsertAtLeast(t[1..], x, k, Key(k, t[0]));
      var r := [t[0]] + rest;
      assert Insert(t, x, k) == r;
      forall i, j | 0 <= i < j < |r| ensures Key(k, r[i]) <= Key(k, r[j]) {
        assert r[j] == rest[j - 1];
        if i > 0 {
          assert r[i] == rest[i - 1];
        }
      }
    } else if t != [] {
      var r := [x] + t;
      forall i, j | 0 <= i < j < |r| ensures Key(k, r[i]) <= Key(k, r[j]) {
        assert r[j] == t[j - 1];
        if i > 0 {
          assert r[i] == t[i - 1];
        } else {
          assert Key(k, t[0]) <= Key(k, t[j - 1]);
        }
      }
    }
  }

  lemma WithKeyCons(y: Record, s: seq<Record>, k: SortKey, v: real)
    ensures WithKey([y] + s, k, v) == (if Key(k, y) == v then [y] else []) + WithKey(s, k, v)
  {
    assert ([y] + s)[1..] == s;
  }

  /** Putting the same element in front of two lists keeps a relation `WithKey(a) == WithKey(b) + tail`. */
  lemma WithKeyConsBoth(y: Record, a: seq<Record>, b: seq<Record>, tail: seq<Record>, k: SortKey, v: real)
    requires WithKey(a, k, v) == WithKey(b, k, v) + tail
    ensures WithKey([y] + a, k, v) == WithKey([y] + b, k, v) + tail
  {
    WithKeyCons(y, a, k, v);
    WithKeyCons(y, b, k, v);
    var head := if Key(k, y) == v then [y] else [];
    assert head + (WithKey(b, k, v) + tail) == (head + WithKey(b, k, v)) + tail;
  }

  /** `InsertWithKey` when `x` goes after the first element, given that it holds for the rest. */
  lemma InsertWithKeyAfter(t: seq<Record>, x: Record, k: SortKey, v: real)
    requires t != [] && Key(k, t[0]) <= Key(k, x)
    requires WithKey(Insert(t[1..], x, k), k, v) == WithKey(t[1..], k, v) + (if Key(k, x) == v then [x] else [])
    ensures WithKey(Insert(t, x, k), k, v) == WithKey(t, k, v) + (if Key(k, x) == v then [x] else [])
  {
    var rest := Insert(t[1..], x, k);
    assert Insert(t, x, k) == [t[0]] + rest;
    assert t == [t[0]] + t[1..];
    WithKeyConsBoth(t[0], rest, t[1..], if Key(k, x) == v then [x] else [], k, v);
  }

  /** `InsertWithKey` when `x` goes in front of a sorted list whose first key exceeds its own. */
  lemma InsertWithKeyBefore(t: seq<Record>, x: Record, k: SortKey, v: real)
    requires SortedBy(t, k) && t != [] && Key(k, x) < Key(k, t[0])
    ensures WithKey(Insert(t, x, k), k, v) == WithKey(t, k, v) + (if Key(k, x) == v then [x] else [])
  {
    assert Insert(t, x, k) == [x] + t;
    WithKeyCons(x, t, k, v);
    if Key(k, x) == v {
      assert forall i :: 0 <= i < |t| ==> Key(k, t[0]) <= Key(k, t[i]);
      WithKeyNone(t, k, v);
    }
  }

  /** Inserting puts `x` after every element with the same key. */
  lemma {:induction false} InsertWithKey(t: seq<Record>, x: Record, k: SortKey, v: real)
    requires SortedBy(t, k)
    ensures WithKey(Insert(t, x, k), k, v) == WithKey(t, k, v) + (if Key(k, x) == v then [x] else [])
  {
    if t == [] {
      WithKeyCons(x, [], k, v);
      assert [x] + [] == [x];
    } else if Key(k, t[0]) <= Key(k, x) {
      assert SortedBy(t[1..], k);
      InsertWithKey(t[1..], x, k, v);
      InsertWithKeyAfter(t, x, k, v);
    } else {
      InsertWithKeyBefore(t, x, k, v);
    }
  }

  /** The sort returns a permutation of its input, ordered by key. */
  lemma {:induction false} StableSortCorrect(s: seq<Record>, k: SortKey)
    ensures |StableSort(s, k)| == |s|
    ensures SortedBy(StableSort(s, k), k)
    ensures multiset(StableSort(s, k)) == multiset(s)
  {
    if s != [] {
      var init, x := s[..|s| - 1], s[|s| - 1];
      StableSortCorrect(init, k);
      InsertPermutes(StableSort(init, k), x, k);
      InsertSorted(StableSort(init, k), x, k);
      assert s == init + [x];
    }
  }

  /** One sorting step keeps the elements of key `v` in order if the shorter sort did. */
  lemma StableSortStableStep(init: seq<Record>, x: Record, k: SortKey, v: real)
    requires SortedBy(StableSort(init, k), k)
    requires WithKey(StableSort(init, k), k, v) == WithKey(init, k, v)
    ensures WithKey(StableSort(init + [x], k), k, v) == WithKey(init + [x], k, v)
  {
    var s := init + [x];
    assert s[..|s| - 1] == init;
    InsertWithKey(StableSort(init, k), x, k, v);
    WithKeyConcat(init, [x], k, v);
    WithKeyCons(x, [], k, v);
    assert [x] + [] == [x];
  }

  /** The sort is stable: the elements sharing a key keep their input order. */
  lemma {:induction false} StableSortStable(s: seq<Record>, k: SortKey, v: real)
    ensures WithKey(StableSort(s, k), k, v) == WithKey(s, k, v)
  {
    if s != [] {
      var init, x := s[..|s| - 1], s[|s| - 1];
      StableSortCorrect(init, k);
      StableSortStable(init, k, v);
      StableSortStableStep(init, x, k, v);
      assert s == init + [x];
    }
  }

  lemma {:induction false} InsertLast(t: seq<Record>, x: Record, k: SortKey)
    requires forall i :: 0 <= i < |t| ==> Key(k, t[i]) <= Key(k, x)
    ensures Insert(t, x, k) == t + [x]
  {
    if t != [] {
      InsertLast(t[1..], x, k);
    }
  }

  /** Sorting a list that is already sorted leaves it as it is, so sorting twice is sorting once. */
  lemma {:induction false} StableSortSorted(s: seq<Record>, k: SortKey)
    requires SortedBy(s, k)
    ensures StableSort(s, k) == s
  {
    if s != [] {
      var init := s[..|s| - 1];
      StableSortSorted(init, k);
      InsertLast(init, s[|s| - 1], k);
    }
  }

  /** The table order: ascending total threads, a permutation, ties in sweep order; and re-sorting changes nothing. */
  lemma ThreadOrder(results: seq<Record>)
    ensures var sorted := StableSort(results, ByThreads);
            (forall i, j :: 0 <= i < j < |sorted| ==> Threads(sorted[i]) <= Threads(sorted[j])) &&
            multiset(sorted) == multiset(results) &&
            (forall v :: WithKey(sorted, ByThreads, v) == WithKey(results, ByThreads, v)) &&
            StableSort(sorted, ByThreads) == sorted
  {
    StableSortCorrect(results, ByThreads);
    forall v ensures WithKey(StableSort(results, ByThreads), ByThreads, v) == WithKey(results, ByThreads, v) {
      StableSortStable(results, ByThreads, v);
    }
    StableSortSorted(StableSort(results, ByThreads), ByThreads);
  }

  /** `results.filter(r => r.means[p])`. */
  function Candidates(rs: seq<Record>, p: nat): seq<Record> {
    if rs == [] then []
    else Candidates(rs[..|rs| - 1], p) + (if HasMean(rs[|rs| - 1], p) then [rs[|rs| - 1]] else [])
  }

  /**
   * `results.filter(r => r.means[p]).sort((a, b) => a.means[p] - b.means[p])[0]`: the
   * best record for level `p`, or `None` (JavaScript's `undefined`) when no record has a
   * truthy mean there.
   */
  function Best(rs: seq<Record>, p: nat): Option<Record> {
    var ranked := StableSort(Candidates(rs, p), ByMeanAt(p));
    if ranked == [] then None else Some(ranked[0])
  }

  /**
   * `rs[i]` has a truthy mean at `p` that is no larger than any other truthy mean there,
   * and every earlier record with a truthy mean at `p` has a strictly larger one.
   */
  predicate IsFirstBest(rs: seq<Record>, p: nat, i: nat)
    requires i < |rs|
  {
    HasMean(rs[i], p) &&
    (forall j :: 0 <= j < |rs| && HasMean(rs[j], p) ==> rs[i].means[p] <= rs[j].means[p]) &&
    (forall j :: 0 <= j < i && HasMean(rs[j], p) ==> rs[i].means[p] < rs[j].means[p])
  }

  /** At most one position satisfies `IsFirstBest`. */
  lemma FirstBestUnique(rs: seq<Record>, p: nat, i: nat, j: nat)
    requires i < |rs| && j < |rs| && IsFirstBest(rs, p, i) && IsFirstBest(rs, p, j)
    ensures i == j
  {
  }

  lemma ExtendWithoutMean(init: seq<Record>, x: Record, p: nat, i: nat)
    requires i < |init| && IsFirstBest(init, p, i) && !HasMean(x, p)
    ensures IsFirstBest(init + [x], p, i)
  {
    var rs := init + [x];
    assert forall j :: 0 <= j < |init| ==> rs[j] == init[j];
  }

  lemma ExtendKeepsBest(init: seq<Record>, x: Record, p: nat, i: nat)
    requires i < |init| && IsFirstBest(init, p, i) && HasMean(x, p) && init[i].means[p] <= x.means[p]
    ensures IsFirstBest(init + [x], p, i)
  {
    var rs := init + [x];
    assert forall j :: 0 <= j < |init| ==> rs[j] == init[j];
  }

  lemma ExtendReplacesBest(init: seq<Record>, x: Record, p: nat, i: nat)
    requires i < |init| && IsFirstBest(init, p, i) && HasMean(x, p) && x.means[p] < init[i].means[p]
    ensures IsFirstBest(init + [x], p, |init|)
  {
    var rs := init + [x];
    assert forall j :: 0 <= j < |init| ==> rs[j] == init[j];
  }

  lemma ExtendFirstMean(init: seq<Record>, x: Record, p: nat)
    requires (forall j :: 0 <= j < |init| ==> !HasMean(init[j], p)) && HasMean(x, p)
    ensures IsFirstBest(init + [x], p, |init|)
  {
    var rs := init + [x];
    assert forall j :: 0 <= j < |init| ==> rs[j] == init[j];
  }

  /** The two ensures of `BestIsFirstMinimum`, for one list. */
  predicate BestSpec(rs: seq<Record>, p: nat) {
    (Best(rs, p).None? <==> forall i :: 0 <= i < |rs| ==> !HasMean(rs[i], p)) &&
    (Best(rs, p).Some? ==> exists i :: 0 <= i < |rs| && rs[i] == Best(rs, p).value && IsFirstBest(rs, p, i))
  }

  lemma BestStepWithoutMean(init: seq<Record>, x: Record, p: nat)
    requires BestSpec(init, p) && !HasMean(x, p)
    ensures BestSpec(init + [x], p)
  {
    var rs := init + [x];
    assert rs[..|rs| - 1] == init;
    assert forall j :: 0 <= j < |init| ==> rs[j] == init[j];
    assert Candidates(rs, p) == Candidates(init, p);
    if Best(init, p).Some? {
      var i :| 0 <= i < |init| && init[i] == Best(init, p).value && IsFirstBest(init, p, i);
      ExtendWithoutMean(init, x, p, i);
    }
  }

  lemma BestStepWithMean(init: seq<Record>, x: Record, p: nat)
    requires BestSpec(init, p) && HasMean(x, p)
    ensures BestSpec(init + [x], p)
  {
    var rs, k := init + [x], ByMeanAt(p);
    var c := Candidates(init, p);
    var ranked := StableSort(c, k);
    assert rs[..|rs| - 1] == init;
    assert Candidates(rs, p) == c + [x];
    assert (c + [x])[..|c|] == c;
    assert StableSort(Candidates(rs, p), k) == Insert(ranked, x, k);
    if ranked == [] {
      assert Best(rs, p) == Some(x);
      ExtendFirstMean(init, x, p);
    } else {
      var i :| 0 <= i < |init| && init[i] == ranked[0] && IsFirstBest(init, p, i);
      if ranked[0].means[p] <= x.means[p] {
        assert Best(rs, p) == Some(ranked[0]);
        ExtendKeepsBest(init, x, p, i);
      } else {
        assert Best(rs, p) == Some(x);
        ExtendReplacesBest(init, x, p, i);
      }
    }
  }

  /**
   * The best record for level `p` exists exactly when some record has a truthy mean at
   * `p`; it is then the first of the records with the smallest such mean.
   */
  lemma {:induction false} BestIsFirstMinimum(rs: seq<Record>, p: nat)
    ensures Best(rs, p).None? <==> forall i :: 0 <= i < |rs| ==> !HasMean(rs[i], p)
    ensures Best(rs, p).Some? ==> exists i :: 0 <= i < |rs| && rs[i] == Best(rs, p).value && IsFirstBest(rs, p, i)
  {
    if rs == [] {
      assert Candidates(rs, p) == [];
    } else {
      var init, x := rs[..|rs| - 1], rs[|rs| - 1];
      assert rs == init + [x];
      BestIsFirstMinimum(init, p);
      if HasMean(x, p) {
        BestStepWithMean(init, x, p);
      } else {
        BestStepWithoutMean(init, x, p);
      }
    }
  }

  /** One table row: UV, Conc, Threads, then one cell per level, `-` (`None`) or the mean. */
  datatype Row = Row(uvSize: nat, concurrency: nat, threads: nat, cells: seq<Option<real>>)

  /** `r.means[p] ? r.means[p].toFixed(1) : '-'`, before number formatting. */
  function Cell(r: Record, p: nat): Option<real> {
    if HasMean(r, p) then Some(r.means[p]) else None
  }

  /** The row printed for `r`: a dash exactly where `means[p]` is missing or zero, the mean elsewhere. */
  function RowOf(r: Record): (row: Row)
    ensures row.uvSize == r.uvSize && row.concurrency == r.concurrency
    ensures row.threads == r.uvSize * r.concurrency
    ensures |row.cells| == |PARALLELISM_LEVELS|
    ensures forall i :: 0 <= i < |row.cells| ==>
              (row.cells[i].None? <==> (PARALLELISM_LEVELS[i] !in r.means || r.means[PARALLELISM_LEVELS[i]] == 0.0)) &&
              (row.cells[i].Some? ==> row.cells[i].value == r.means[PARALLELISM_LEVELS[i]])
  {
    Row(r.uvSize, r.concurrency, Threads(r),
        seq(|PARALLELISM_LEVELS|, i requires 0 <= i < |PARALLELISM_LEVELS| => Cell(r, PARALLELISM_LEVELS[i])))
  }

  /** What `printResults` shows for one format: its table rows and its best record per level. */
  datatype FormatReport = FormatReport(format: string, rows: seq<Row>, best: seq<Option<Record>>)

  /** The report of a format whose results are already in table order. */
  function ReportOf(format: string, sorted: seq<Record>): FormatReport {
    FormatReport(format,
                 seq(|sorted|, i requires 0 <= i < |sorted| => RowOf(sorted[i])),
                 seq(|PARALLELISM_LEVELS|, i requires 0 <= i < |PARALLELISM_LEVELS| => Best(sorted, PARALLELISM_LEVELS[i])))
  }

  /**
   * A format's report has one row per record, in table order, and one best entry per
   * parallelism level; a best entry is absent exactly when no record has a truthy mean at
   * that level, and is otherwise the first record with the smallest one.
   */
  lemma ReportOfSpec(format: string, sorted: seq<Record>)
    ensures var rep := ReportOf(format, sorted);
            rep.format == format && |rep.rows| == |sorted| && |rep.best| == |PARALLELISM_LEVELS| &&
            (forall i :: 0 <= i < |sorted| ==> rep.rows[i] == RowOf(sorted[i])) &&
            forall i :: 0 <= i < |PARALLELISM_LEVELS| ==>
              (rep.best[i].None? <==> forall j :: 0 <= j < |sorted| ==> !HasMean(sorted[j], PARALLELISM_LEVELS[i])) &&
              (rep.best[i].Some? ==> exists j :: 0 <= j < |sorted| && sorted[j] == rep.best[i].value &&
                                                 IsFirstBest(sorted, PARALLELISM_LEVELS[i], j))
  {
    forall i | 0 <= i < |PARALLELISM_LEVELS| {
      BestIsFirstMinimum(sorted, PARALLELISM_LEVELS[i]);
    }
  }
}
