/**
 * Retrieval metrics over a golden query set, and the gate that compares a run
 * with a committed snapshot (internal/baseline/metrics.go, runner.go,
 * fixture.go and cmd/eval_helpers.go). Scores are exact reals.
 */
module Baseline {
  import opened Wrappers
  import opened Sorting

  datatype Query = Query(name: string, text: string, expected: seq<string>)

  datatype QueryResult = QueryResult(name: string, text: string, expected: seq<string>, ids: seq<string>, hit: real, rr: real)

  datatype Report = Report(k: int, queries: seq<QueryResult>, hit: real, mrr: real)

  // ------------------------------------------------------------ the two metrics

  /** How many results come before the first relevant one. */
  function First(results: seq<string>, expected: seq<string>): (n: nat)
    ensures n <= |results|
    ensures forall i | 0 <= i < n :: results[i] !in expected
    ensures n < |results| ==> results[n] in expected
  {
    if results == [] || results[0] in expected then 0 else 1 + First(results[1..], expected)
  }

  predicate Relevant(results: seq<string>, expected: seq<string>) {
    First(results, expected) < |results|
  }

  /** The 1-based rank of the first relevant result. */
  function Rank(results: seq<string>, expected: seq<string>): nat {
    First(results, expected) + 1
  }

  predicate Hits(results: seq<string>, expected: seq<string>, k: int) {
    Relevant(results, expected) && Rank(results, expected) <= k
  }

  function HitScore(results: seq<string>, expected: seq<string>, k: int): real {
    if Hits(results, expected, k) then 1.0 else 0.0
  }

  function RankScore(results: seq<string>, expected: seq<string>): real {
    if Relevant(results, expected) then 1.0 / Rank(results, expected) as real else 0.0
  }

  method Seen(expected: seq<string>) returns (seen: set<string>)
    ensures forall e :: e in seen <==> e in expected
  {
    seen := {};
    for i := 0 to |expected|
      invariant forall e :: e in seen <==> e in expected[..i]
    {
      seen := seen + {expected[i]};
      assert expected[..i + 1] == expected[..i] + [expected[i]];
    }
    assert expected[..|expected|] == expected;
  }

  /** 1 exactly when one of the first k results is expected. */
  method HitAtK(results: seq<string>, expected: seq<string>, k: int) returns (score: real)
    ensures score == HitScore(results, expected, k)
    ensures score == 1.0 <==> exists i :: 0 <= i < |results| && i < k && results[i] in expected
    ensures score == 1.0 || score == 0.0
  {
    ghost var n := First(results, expected);
    if |expected| == 0 || |results| == 0 {
      return 0.0;
    }
    var seen := Seen(expected);
    var limit := if k < |results| then k else |results|;
    var i := 0;
    while i < limit
      invariant 0 <= i <= |results| && i <= n
      invariant i <= limit || i == 0
    {
      if results[i] in seen {
        return 1.0;
      }
      i := i + 1;
    }
    score := 0.0;
  }

  method ReciprocalRank(results: seq<string>, expected: seq<string>) returns (score: real)
    ensures score == RankScore(results, expected)
    ensures forall i | 0 <= i < |results| && results[i] in expected && (forall j | 0 <= j < i :: results[j] !in expected) ::
              score == 1.0 / (i + 1) as real
    ensures (forall i | 0 <= i < |results| :: results[i] !in expected) ==> score == 0.0
  {
    ghost var n := First(results, expected);
    if |results| == 0 || |expected| == 0 {
      return 0.0;
    }
    var seen := Seen(expected);
    for i := 0 to |results|
      invariant i <= n
    {
      if results[i] in seen {
        return 1.0 / (i + 1) as real;
      }
    }
    score := 0.0;
  }

  lemma InverseOrder(a: real, b: real)
    requires a > 0.0 && b > 0.0
    ensures 1.0 / a >= 1.0 / b <==> a <= b
    ensures 1.0 / a == 1.0 / b <==> a == b
    ensures 0.0 < 1.0 / a
  {
  }

  /** A query hits at K exactly when its reciprocal rank is at least 1/K. */
  lemma HitIsRank(results: seq<string>, expected: seq<string>, k: nat)
    requires k >= 1
    ensures Hits(results, expected, k) <==> RankScore(results, expected) >= 1.0 / k as real
  {
    InverseOrder(k as real, 1.0);
    if Relevant(results, expected) {
      InverseOrder(Rank(results, expected) as real, k as real);
    }
  }

  /** A reciprocal rank is 1 for a first place, and never negative. */
  lemma RankScoreRange(results: seq<string>, expected: seq<string>)
    ensures 0.0 <= RankScore(results, expected) <= 1.0
  {
  }

  /** Of two result lists, the one whose first relevant result ranks lower scores more. */
  lemma RankScoreOrder(a: seq<string>, ea: seq<string>, b: seq<string>, eb: seq<string>)
    ensures RankScore(a, ea) < RankScore(b, eb) <==>
              Relevant(b, eb) && (Relevant(a, ea) ==> Rank(b, eb) < Rank(a, ea))
  {
    if Relevant(b, eb) {
      InverseOrder(Rank(b, eb) as real, 1.0);
      if Relevant(a, ea) {
        InverseOrder(Rank(a, ea) as real, Rank(b, eb) as real);
      }
    } else {
      RankScoreRange(a, ea);
    }
  }

  /** Only which ids are expected matters: not their order, and not how often each is listed. */
  lemma {:induction false} ExpectedIsASet(results: seq<string>, e: seq<string>, f: seq<string>, k: int)
    requires forall id :: id in e <==> id in f
    ensures First(results, e) == First(results, f)
    ensures HitScore(results, e, k) == HitScore(results, f, k) && RankScore(results, e) == RankScore(results, f)
  {
  }

  /** Fetching fewer results never raises a metric, and fetching at least k leaves the hit as it is. */
  lemma FetchingLess(results: seq<string>, expected: seq<string>, k: int, limit: nat)
    requires limit <= |results|
    ensures HitScore(results[..limit], expected, k) <= HitScore(results, expected, k)
    ensures k <= limit ==> HitScore(results[..limit], expected, k) == HitScore(results, expected, k)
    ensures RankScore(results[..limit], expected) <= RankScore(results, expected)
  {
  }

  // ------------------------------------------------------------ sums and means

  function Sum(xs: seq<real>): real {
    if xs == [] then 0.0 else Sum(xs[..|xs| - 1]) + xs[|xs| - 1]
  }

  function Mean(xs: seq<real>): real {
    if xs == [] then 0.0 else Sum(xs) / |xs| as real
  }

  /** Sum adds up the numbers, one by one. */
  lemma {:induction false} SumIs(xs: seq<real>, ys: seq<real>, x: real)
    ensures Sum([]) == 0.0 && Sum([x]) == x
    ensures Sum(xs + ys) == Sum(xs) + Sum(ys)
    decreases |ys|
  {
    assert [x][..0] == [];
    assert Sum([]) == 0.0;
    if ys == [] {
      assert xs + ys == xs;
    } else {
      var all := xs + ys;
      assert all[..|all| - 1] == xs + ys[..|ys| - 1];
      SumIs(xs, ys[..|ys| - 1], x);
    }
  }

  /** The mean, as often as there are numbers, is their sum; that of none is 0. */
  lemma MeanIs(xs: seq<real>)
    ensures Mean(xs) * |xs| as real == Sum(xs)
    ensures xs == [] ==> Mean(xs) == 0.0
  {
    if xs != [] {
      Divided(Sum(xs), |xs| as real);
    }
  }

  lemma Divided(x: real, n: real)
    requires n > 0.0
    ensures x / n * n == x
  {
  }

  /** An affine bound on every pair bounds the sums. */
  lemma {:induction false} SumBound(xs: seq<real>, ys: seq<real>, a: real, b: real)
    requires |xs| == |ys| && forall i | 0 <= i < |xs| :: xs[i] <= a * ys[i] + b
    ensures Sum(xs) <= a * Sum(ys) + b * |xs| as real
  {
    if xs != [] {
      var n := |xs| - 1;
      SumBound(xs[..n], ys[..n], a, b);
      assert a * Sum(ys) == a * Sum(ys[..n]) + a * ys[n];
      assert b * |xs| as real == b * n as real + b;
    }
  }

  /** And so the means. */
  lemma MeanBound(xs: seq<real>, ys: seq<real>, a: real, b: real)
    requires |xs| == |ys| && forall i | 0 <= i < |xs| :: xs[i] <= a * ys[i] + b
    ensures xs != [] || 0.0 <= b ==> Mean(xs) <= a * Mean(ys) + b
  {
    if xs != [] {
      SumBound(xs, ys, a, b);
      QuotientBound(Sum(xs), Sum(ys), |xs| as real, a, b);
    }
  }

  lemma QuotientBound(x: real, y: real, n: real, a: real, b: real)
    requires n > 0.0 && x <= a * y + b * n
    ensures x / n <= a * (y / n) + b
  {
  }

  // ------------------------------------------------------------ a run

  function HitsOf(rows: seq<QueryResult>): (r: seq<real>)
    ensures |r| == |rows| && forall i | 0 <= i < |rows| :: r[i] == rows[i].hit
  {
    seq(|rows|, i requires 0 <= i < |rows| => rows[i].hit)
  }

  function RanksOf(rows: seq<QueryResult>): (r: seq<real>)
    ensures |r| == |rows| && forall i | 0 <= i < |rows| :: r[i] == rows[i].rr
  {
    seq(|rows|, i requires 0 <= i < |rows| => rows[i].rr)
  }

  ghost predicate RowScored(row: QueryResult, k: int) {
    row.hit == HitScore(row.ids, row.expected, k) && row.rr == RankScore(row.ids, row.expected)
  }

  /** A report whose numbers are those of its rows' results. */
  ghost predicate Scored(r: Report) {
    && (forall row | row in r.queries :: RowScored(row, r.k))
    && r.hit == Mean(HitsOf(r.queries)) && r.mrr == Mean(RanksOf(r.queries))
  }

  /** The row is the query asked, with the results the search gave. */
  ghost predicate RowOf(row: QueryResult, q: Query, ids: seq<string>) {
    row.name == q.name && row.text == q.text && row.expected == q.expected && row.ids == ids
  }

  /** search(i, text) is the retriever's answer to call i. */
  method Run(search: (nat, string) -> Result<seq<string>, string>, queries: seq<Query>, k: int) returns (r: Result<Report, string>)
    ensures r.Err? <==> exists i :: 0 <= i < |queries| && search(i, queries[i].text).Err?
    ensures r.Ok? ==> r.value.k == k && Scored(r.value) && |r.value.queries| == |queries|
    ensures r.Ok? ==> forall i | 0 <= i < |queries| ::
              search(i, queries[i].text).Ok? && RowOf(r.value.queries[i], queries[i], search(i, queries[i].text).value)
  {
    hide Mean;
    var rows: seq<QueryResult> := [];
    if |queries| == 0 {
      NoRows();
      return Ok(Report(k, rows, 0.0, 0.0));
    }
    var hitSum, rrSum := 0.0, 0.0;
    for i := 0 to |queries|
      invariant |rows| == i && forall row | row in rows :: RowScored(row, k)
      invariant hitSum == Sum(HitsOf(rows)) && rrSum == Sum(RanksOf(rows))
      invariant forall j | 0 <= j < i :: search(j, queries[j].text).Ok? && RowOf(rows[j], queries[j], search(j, queries[j].text).value)
    {
      var q := queries[i];
      var answer := search(i, q.text);
      if answer.Err? {
        return Err(answer.error);
      }
      var hit := HitAtK(answer.value, q.expected, k);
      var rr := ReciprocalRank(answer.value, q.expected);
      var row := QueryResult(q.name, q.text, q.expected, answer.value, hit, rr);
      assert HitsOf(rows + [row])[..i] == HitsOf(rows) && RanksOf(rows + [row])[..i] == RanksOf(rows);
      rows := rows + [row];
      hitSum := hitSum + hit;
      rrSum := rrSum + rr;
    }
    var n := |queries| as real;
    MeanOfRows(rows);
    r := Ok(Report(k, rows, hitSum / n, rrSum / n));
  }

  lemma NoRows()
    ensures Mean(HitsOf([])) == 0.0 && Mean(RanksOf([])) == 0.0
  {
  }

  lemma MeanOfRows(rows: seq<QueryResult>)
    requires rows != []
    ensures Mean(HitsOf(rows)) == Sum(HitsOf(rows)) / |rows| as real
    ensures Mean(RanksOf(rows)) == Sum(RanksOf(rows)) / |rows| as real
  {
  }

  /** What one row's hit says about its reciprocal rank, and back. */
  lemma RowBounds(row: QueryResult, k: nat)
    requires k >= 1 && RowScored(row, k)
    ensures 1.0 / k as real * row.hit <= row.rr
    ensures row.rr <= (1.0 - 1.0 / (k + 1) as real) * row.hit + 1.0 / (k + 1) as real
  {
    HitIsRank(row.ids, row.expected, k);
    RankScoreRange(row.ids, row.expected);
    InverseOrder((k + 1) as real, 1.0);
    if Relevant(row.ids, row.expected) && !Hits(row.ids, row.expected, k) {
      InverseOrder((k + 1) as real, Rank(row.ids, row.expected) as real);
    }
  }

  /** Every scored report keeps Hit@K / K <= MRR <= Hit@K + (1 - Hit@K) / (K + 1). */
  lemma MetricBounds(r: Report)
    requires Scored(r) && r.k >= 1
    ensures r.hit / r.k as real <= r.mrr
    ensures r.mrr <= r.hit + (1.0 - r.hit) / (r.k + 1) as real
  {
    hide Mean;
    var hits, ranks := HitsOf(r.queries), RanksOf(r.queries);
    var a, b := 1.0 / r.k as real, 1.0 / (r.k + 1) as real;
    Inverses(r.k);
    RowsBound(r.queries, r.k);
    MeanBound(ranks, hits, 1.0 - b, b);
    ScaledMean(hits, ranks, a);
    Quotients(r.hit, r.k as real, (r.k + 1) as real);
  }

  lemma Inverses(k: nat)
    requires k >= 1
    ensures 0.0 < 1.0 / k as real && 0.0 < 1.0 / (k + 1) as real
  {
  }

  lemma RowsBound(rows: seq<QueryResult>, k: nat)
    requires k >= 1 && forall row | row in rows :: RowScored(row, k)
    ensures var a, b := 1.0 / k as real, 1.0 / (k + 1) as real;
            forall i | 0 <= i < |rows| ::
              a * HitsOf(rows)[i] <= RanksOf(rows)[i] && RanksOf(rows)[i] <= (1.0 - b) * HitsOf(rows)[i] + b
  {
    hide RowScored;
    forall i | 0 <= i < |rows|
      ensures 1.0 / k as real * rows[i].hit <= rows[i].rr
      ensures rows[i].rr <= (1.0 - 1.0 / (k + 1) as real) * rows[i].hit + 1.0 / (k + 1) as real
    {
      assert rows[i] in rows;
      RowBounds(rows[i], k);
    }
  }

  lemma ScaledMean(xs: seq<real>, ys: seq<real>, a: real)
    requires a > 0.0 && |xs| == |ys| && forall i | 0 <= i < |xs| :: a * xs[i] <= ys[i]
    ensures a * Mean(xs) <= Mean(ys)
  {
    var inv := 1.0 / a;
    assert inv * a == 1.0 && inv > 0.0;
    forall i | 0 <= i < |xs| ensures xs[i] <= inv * ys[i] + 0.0 {
      assert inv * (ys[i] - a * xs[i]) >= 0.0;
      assert inv * (a * xs[i]) == xs[i];
    }
    MeanBound(xs, ys, inv, 0.0);
    assert a * (inv * Mean(ys)) == Mean(ys);
    assert a * (inv * Mean(ys) - Mean(xs)) >= 0.0;
  }

  lemma Quotients(x: real, k: real, m: real)
    requires k > 0.0 && m > 0.0
    ensures x / k == 1.0 / k * x
    ensures x + (1.0 - x) / m == (1.0 - 1.0 / m) * x + 1.0 / m
  {
  }

  // ------------------------------------------------------------ scoring for display

  /** int(1/rr + 0.5), or 0 for no relevant result. */
  function RankFrom(rr: real): int {
    if rr > 0.0 then (1.0 / rr + 0.5).Floor else 0
  }

  datatype Scores = Scores(ranks: seq<int>, hitAt1: Option<real>)

  /** The share of first places has no value when there are no queries. */
  method ScoreEval(r: Report) returns (s: Scores)
    ensures |s.ranks| == |r.queries| && forall i | 0 <= i < |r.queries| :: s.ranks[i] == RankFrom(r.queries[i].rr)
    ensures s.hitAt1.Some? <==> r.queries != []
    ensures s.hitAt1.Some? ==> s.hitAt1.value == Mean(FirstPlaces(s.ranks))
  {
    var ranks: seq<int>, hits1 := [], 0;
    for i := 0 to |r.queries|
      invariant |ranks| == i && forall j | 0 <= j < i :: ranks[j] == RankFrom(r.queries[j].rr)
      invariant hits1 as real == Sum(FirstPlaces(ranks))
    {
      var rank := 0;
      if r.queries[i].rr > 0.0 {
        rank := (1.0 / r.queries[i].rr + 0.5).Floor;
      }
      if rank == 1 {
        hits1 := hits1 + 1;
      }
      assert FirstPlaces(ranks + [rank])[..i] == FirstPlaces(ranks);
      ranks := ranks + [rank];
    }
    s := Scores(ranks, if |r.queries| == 0 then None else Some(hits1 as real / |r.queries| as real));
  }

  function FirstPlaces(ranks: seq<int>): (r: seq<real>)
    ensures |r| == |ranks| && forall i | 0 <= i < |ranks| :: r[i] == if ranks[i] == 1 then 1.0 else 0.0
  {
    seq(|ranks|, i requires 0 <= i < |ranks| => if ranks[i] == 1 then 1.0 else 0.0)
  }

  /** The rank read back from a reciprocal rank is the rank it was made from. */
  lemma RankRecovered(results: seq<string>, expected: seq<string>)
    ensures RankFrom(RankScore(results, expected)) == if Relevant(results, expected) then Rank(results, expected) else 0
  {
  }

  /** The displayed share of first places is Hit@1, and is at most both MRR and Hit@K. */
  lemma FirstPlacesAreLeast(r: Report, ranks: seq<int>)
    requires Scored(r) && r.k >= 1
    requires |ranks| == |r.queries| && forall i | 0 <= i < |ranks| :: ranks[i] == RankFrom(r.queries[i].rr)
    ensures forall i | 0 <= i < |ranks| :: FirstPlaces(ranks)[i] == HitScore(r.queries[i].ids, r.queries[i].expected, 1)
    ensures Mean(FirstPlaces(ranks)) <= r.mrr && Mean(FirstPlaces(ranks)) <= r.hit
  {
    hide Mean;
    var ones, hits, rrs := FirstPlaces(ranks), HitsOf(r.queries), RanksOf(r.queries);
    forall i | 0 <= i < |ranks|
      ensures ones[i] == HitScore(r.queries[i].ids, r.queries[i].expected, 1)
      ensures ones[i] <= 1.0 * rrs[i] + 0.0 && ones[i] <= 1.0 * hits[i] + 0.0
    {
      var row := r.queries[i];
      assert row in r.queries;
      FirstPlaceIsLeast(row, r.k);
    }
    MeanBound(ones, rrs, 1.0, 0.0);
    MeanBound(ones, hits, 1.0, 0.0);
  }

  lemma FirstPlaceIsLeast(row: QueryResult, k: int)
    requires RowScored(row, k) && k >= 1
    ensures var one := if RankFrom(row.rr) == 1 then 1.0 else 0.0;
            one == HitScore(row.ids, row.expected, 1) && one <= row.rr && one <= row.hit
  {
  }

  // ------------------------------------------------------------ the gate

  datatype Regression =
    | AggregateHit(before: real, now: real)
    | AggregateMrr(before: real, now: real)
    | QueryHit(name: string, before: real, now: real)
    | QueryRank(name: string, before: real, now: real)

  datatype Diff = Diff(ok: bool, regressions: seq<Regression>)

  /** The snapshot row a name stands for: the last one that has it. */
  function Latest(rows: seq<QueryResult>, name: string): (r: Option<QueryResult>)
    ensures r.Some? ==> r.value in rows && r.value.name == name
    ensures r.None? ==> forall row | row in rows :: row.name != name
  {
    if rows == [] then None
    else
      var last := rows[|rows| - 1];
      if last.name == name then Some(last) else Latest(rows[..|rows| - 1], name)
  }

  function RowRegressions(row: QueryResult, before: Option<QueryResult>, t: real): seq<Regression> {
    if before.None? then []
    else
      (if row.hit < before.value.hit - t then [QueryHit(row.name, before.value.hit, row.hit)] else [])
      + (if row.rr < before.value.rr - t then [QueryRank(row.name, before.value.rr, row.rr)] else [])
  }

  function RowsRegressions(rows: seq<QueryResult>, snapshot: seq<QueryResult>, t: real): seq<Regression> {
    if rows == [] then []
    else
      var last := |rows| - 1;
      RowsRegressions(rows[..last], snapshot, t) + RowRegressions(rows[last], Latest(snapshot, rows[last].name), t)
  }

  function AggregateRegressions(current: Report, snapshot: Report, t: real): seq<Regression> {
    (if current.hit < snapshot.hit - t then [AggregateHit(snapshot.hit, current.hit)] else [])
    + (if current.mrr < snapshot.mrr - t then [AggregateMrr(snapshot.mrr, current.mrr)] else [])
  }

  function Regressions(current: Report, snapshot: Report, t: real): seq<Regression> {
    AggregateRegressions(current, snapshot, t) + RowsRegressions(current.queries, snapshot.queries, t)
  }

  method IndexByName(rows: seq<QueryResult>) returns (byName: map<string, QueryResult>)
    ensures forall name :: name in byName <==> Latest(rows, name).Some?
    ensures forall name | name in byName :: byName[name] == Latest(rows, name).value
  {
    byName := map[];
    for i := 0 to |rows|
      invariant forall name :: name in byName <==> Latest(rows[..i], name).Some?
      invariant forall name | name in byName :: byName[name] == Latest(rows[..i], name).value
    {
      assert rows[..i + 1][..i] == rows[..i];
      byName := byName[rows[i].name := rows[i]];
    }
    assert rows[..|rows|] == rows;
  }

  method CompareToSnapshot(current: Report, snapshot: Report, tolerance: real) returns (r: Result<Diff, string>)
    ensures r.Ok? <==> current.k == snapshot.k
    ensures r.Ok? ==> r.value.regressions == Regressions(current, snapshot, tolerance)
    ensures r.Ok? ==> (r.value.ok <==> Passes(current, snapshot, tolerance))
  {
    hide RowRegressions;
    hide AggregateRegressions;
    hide Latest;
    hide Passes;
    if current.k != snapshot.k {
      return Err("k mismatch");
    }
    var ok, found := CheckAggregates(current, snapshot, tolerance);
    ghost var top := found;
    var prior, rows := snapshot.queries, current.queries;
    var byName := IndexByName(prior);
    for i := 0 to |rows|
      invariant found == top + RowsRegressions(rows[..i], prior, tolerance)
      invariant ok <==> found == []
    {
      OneMoreRow(rows, i, prior, tolerance);
      if rows[i].name !in byName {
        continue;
      }
      ok, found := CheckRow(rows[i], byName[rows[i].name], tolerance, ok, found);
    }
    assert rows[..|rows|] == rows;
    PassesWhenNoneFound(current, snapshot, tolerance);
    r := Ok(Diff(ok, found));
  }

  method CheckAggregates(current: Report, snapshot: Report, tolerance: real) returns (ok: bool, found: seq<Regression>)
    ensures found == AggregateRegressions(current, snapshot, tolerance) && (ok <==> found == [])
  {
    ok, found := true, [];
    if current.hit < snapshot.hit - tolerance {
      ok, found := false, found + [AggregateHit(snapshot.hit, current.hit)];
    }
    if current.mrr < snapshot.mrr - tolerance {
      ok, found := false, found + [AggregateMrr(snapshot.mrr, current.mrr)];
    }
  }

  method CheckRow(row: QueryResult, prev: QueryResult, tolerance: real, soFar: bool, before: seq<Regression>)
    returns (ok: bool, found: seq<Regression>)
    requires soFar <==> before == []
    ensures found == before + RowRegressions(row, Some(prev), tolerance) && (ok <==> found == [])
  {
    ok, found := soFar, before;
    if row.hit < prev.hit - tolerance {
      ok, found := false, found + [QueryHit(row.name, prev.hit, row.hit)];
    }
    if row.rr < prev.rr - tolerance {
      ok, found := false, found + [QueryRank(row.name, prev.rr, row.rr)];
    }
  }

  lemma OneMoreRow(rows: seq<QueryResult>, i: nat, snapshot: seq<QueryResult>, t: real)
    requires i < |rows|
    ensures Latest(snapshot, rows[i].name).None? ==> RowsRegressions(rows[..i + 1], snapshot, t) == RowsRegressions(rows[..i], snapshot, t)
    ensures Latest(snapshot, rows[i].name).Some? ==>
              RowsRegressions(rows[..i + 1], snapshot, t)
              == RowsRegressions(rows[..i], snapshot, t) + RowRegressions(rows[i], Latest(snapshot, rows[i].name), t)
  {
    hide Latest;
    assert rows[..i + 1][..i] == rows[..i];
  }

  ghost predicate Holds(now: real, before: real, t: real) {
    now >= before - t
  }

  ghost predicate RowHolds(row: QueryResult, before: Option<QueryResult>, t: real) {
    before.Some? ==> Holds(row.hit, before.value.hit, t) && Holds(row.rr, before.value.rr, t)
  }

  /** No metric, overall or of a query both reports name, fell by more than the tolerance. */
  ghost predicate Passes(current: Report, snapshot: Report, t: real) {
    && Holds(current.hit, snapshot.hit, t) && Holds(current.mrr, snapshot.mrr, t)
    && RowsHold(current.queries, snapshot.queries, t)
  }

  ghost predicate RowsHold(rows: seq<QueryResult>, snapshot: seq<QueryResult>, t: real) {
    forall row | row in rows :: RowHolds(row, Latest(snapshot, row.name), t)
  }

  lemma NoneInRow(row: QueryResult, before: Option<QueryResult>, t: real)
    ensures RowRegressions(row, before, t) == [] <==> RowHolds(row, before, t)
  {
  }

  lemma {:induction false} NoneFound(rows: seq<QueryResult>, snapshot: seq<QueryResult>, t: real)
    ensures RowsRegressions(rows, snapshot, t) == [] <==> RowsHold(rows, snapshot, t)
  {
    hide RowRegressions;
    hide RowHolds;
    hide Latest;
    if rows != [] {
      var last := |rows| - 1;
      NoneFound(rows[..last], snapshot, t);
      NoneInRow(rows[last], Latest(snapshot, rows[last].name), t);
      assert rows == rows[..last] + [rows[last]];
    }
  }

  /** The gate is green exactly when it lists no regression. */
  lemma PassesWhenNoneFound(current: Report, snapshot: Report, t: real)
    ensures Regressions(current, snapshot, t) == [] <==> Passes(current, snapshot, t)
  {
    NoneFound(current.queries, snapshot.queries, t);
  }

  /**
   * Passing twice in a row is passing once at the summed tolerance, exactly when
   * no query the ends share and the middle lacks fell by more than that.
   */
  lemma ToleranceAdds(a: Report, b: Report, c: Report, t: real, u: real)
    requires Passes(a, b, t) && Passes(b, c, u)
    ensures Passes(a, c, t + u) <==>
              forall row | row in a.queries && Latest(b.queries, row.name).None? :: RowHolds(row, Latest(c.queries, row.name), t + u)
  {
    forall row | row in a.queries && Latest(b.queries, row.name).Some? ensures RowHolds(row, Latest(c.queries, row.name), t + u) {
      var between := Latest(b.queries, row.name).value;
      assert RowHolds(row, Latest(b.queries, row.name), t);
      assert RowHolds(between, Latest(c.queries, between.name), u);
    }
  }

  /** A query left out in between can lose everything unseen. */
  lemma GapHidesALoss()
    ensures var row := QueryResult("q", "", ["x"], ["x"], 1.0, 1.0);
            var lost := row.(ids := [], hit := 0.0, rr := 0.0);
            var a, b, c := Report(1, [lost], 0.0, 0.0), Report(1, [], 0.0, 0.0), Report(1, [row], 0.0, 0.0);
            Passes(a, b, 0.0) && Passes(b, c, 0.0) && !Passes(a, c, 0.0)
  {
  }

  /** Row j is the last with its name. */
  ghost predicate IsLast(rows: seq<QueryResult>, j: int) {
    0 <= j < |rows| && forall k | j < k < |rows| :: rows[k].name != rows[j].name
  }

  lemma {:induction false} LatestIsLast(rows: seq<QueryResult>, j: nat)
    requires IsLast(rows, j)
    ensures Latest(rows, rows[j].name) == Some(rows[j])
  {
    if j < |rows| - 1 {
      assert rows[..|rows| - 1][j] == rows[j];
      assert forall k | j < k < |rows| - 1 :: rows[..|rows| - 1][k] == rows[k];
      LatestIsLast(rows[..|rows| - 1], j);
    }
  }

  lemma {:induction false} LastOf(rows: seq<QueryResult>, i: nat) returns (j: nat)
    requires i < |rows|
    ensures i <= j && IsLast(rows, j) && rows[j].name == rows[i].name
    decreases |rows|
  {
    var last := |rows| - 1;
    if rows[last].name == rows[i].name {
      j := last;
    } else {
      j := LastOf(rows[..last], i);
      assert forall k | j < k < last :: rows[..last][k] == rows[k];
    }
  }

  /** A name listed twice, the earlier row more than t below the last. */
  ghost predicate FallsShort(rows: seq<QueryResult>, i: int, j: int, t: real) {
    && 0 <= i < j && IsLast(rows, j) && rows[i].name == rows[j].name
    && !(Holds(rows[i].hit, rows[j].hit, t) && Holds(rows[i].rr, rows[j].rr, t))
  }

  /**
   * A report passes against itself exactly when the tolerance is not negative
   * and no query name is listed twice with a better last row. With distinct
   * names, as a fixture is meant to have, that is every tolerance from 0.
   */
  lemma SelfComparison(r: Report, t: real)
    ensures Passes(r, r, t) <==> t >= 0.0 && forall i, j :: !FallsShort(r.queries, i, j, t)
  {
    var rows := r.queries;
    if Passes(r, r, t) {
      forall i, j ensures !FallsShort(rows, i, j, t) {
        if 0 <= i < j && IsLast(rows, j) && rows[i].name == rows[j].name {
          LatestIsLast(rows, j);
          assert rows[i] in rows;
          assert RowHolds(rows[i], Latest(rows, rows[i].name), t);
        }
      }
    } else if t >= 0.0 {
      var row :| row in rows && !RowHolds(row, Latest(rows, row.name), t);
      var i :| 0 <= i < |rows| && rows[i] == row;
      var j := LastOf(rows, i);
      LatestIsLast(rows, j);
      assert FallsShort(rows, i, j, t);
    }
  }

  /** A duplicated name fails against itself. */
  lemma DuplicateFailsItself()
    ensures var worse := QueryResult("q", "", ["x"], [], 0.0, 0.0);
            var better := QueryResult("q", "", ["x"], ["x"], 1.0, 1.0);
            var r := Report(1, [worse, better], 0.5, 0.5);
            Scored(r) && !Passes(r, r, 0.02)
  {
    var worse := QueryResult("q", "", ["x"], [], 0.0, 0.0);
    var better := QueryResult("q", "", ["x"], ["x"], 1.0, 1.0);
    var rows := [worse, better];
    TwoRows(rows, 0.0, 1.0);
    assert First(["x"], ["x"]) == 0;
    assert FallsShort(rows, 0, 1, 0.02);
    SelfComparison(Report(1, rows, 0.5, 0.5), 0.02);
  }

  lemma TwoRows(rows: seq<QueryResult>, a: real, b: real)
    requires |rows| == 2 && rows[0].hit == rows[0].rr == a && rows[1].hit == rows[1].rr == b
    ensures Mean(HitsOf(rows)) == Mean(RanksOf(rows)) == (a + b) / 2.0
  {
    var hits := HitsOf(rows);
    assert hits == RanksOf(rows) == [a, b];
    assert hits[..1] == [a] && [a][..0] == [];
    assert Sum([a]) == a;
  }

  /** The snapshot row of a name is the last that has it. */
  ghost predicate Snapped(snapshot: seq<QueryResult>, name: string, prev: QueryResult) {
    exists j :: IsLast(snapshot, j) && snapshot[j] == prev && prev.name == name
  }

  lemma LatestSnapped(snapshot: seq<QueryResult>, name: string, prev: QueryResult)
    ensures Latest(snapshot, name) == Some(prev) <==> Snapped(snapshot, name, prev)
  {
    if j :| IsLast(snapshot, j) && snapshot[j] == prev && prev.name == name {
      LatestIsLast(snapshot, j);
    }
    if Latest(snapshot, name) == Some(prev) {
      var i :| 0 <= i < |snapshot| && snapshot[i] == prev;
      var j := LastOf(snapshot, i);
      LatestIsLast(snapshot, j);
    }
  }

  /** One query's regressions: its hit, then its rank, each under its own name with the snapshot's value and the new one. */
  lemma RowRegressionsAre(row: QueryResult, prev: QueryResult, t: real)
    ensures var hit, rank := row.hit < prev.hit - t, row.rr < prev.rr - t;
            RowRegressions(row, Some(prev), t) ==
              if hit && rank then [QueryHit(row.name, prev.hit, row.hit), QueryRank(row.name, prev.rr, row.rr)]
              else if hit then [QueryHit(row.name, prev.hit, row.hit)]
              else if rank then [QueryRank(row.name, prev.rr, row.rr)]
              else []
    ensures RowRegressions(row, None, t) == []
  {
  }

  /** The queries' regressions are listed query after query. */
  lemma {:induction false} RowsInOrder(a: seq<QueryResult>, b: seq<QueryResult>, snapshot: seq<QueryResult>, t: real)
    ensures RowsRegressions(a + b, snapshot, t) == RowsRegressions(a, snapshot, t) + RowsRegressions(b, snapshot, t)
    decreases |b|
  {
    hide RowRegressions;
    hide Latest;
    if b == [] {
      assert a + b == a;
    } else {
      var all := a + b;
      assert all[..|all| - 1] == a + b[..|b| - 1];
      RowsInOrder(a, b[..|b| - 1], snapshot, t);
    }
  }

  lemma {:induction false} RowsRegressionsAre(rows: seq<QueryResult>, snapshot: seq<QueryResult>, t: real, r: Regression)
    ensures r in RowsRegressions(rows, snapshot, t) <==>
              exists row, prev :: row in rows && Snapped(snapshot, row.name, prev) && r in RowRegressions(row, Some(prev), t)
  {
    hide RowRegressions;
    hide Latest;
    if rows != [] {
      var front, last := rows[..|rows| - 1], rows[|rows| - 1];
      RowsRegressionsAre(front, snapshot, t, r);
      assert rows == front + [last];
      var before := Latest(snapshot, last.name);
      NoneRegresses(last, t);
      if before.Some? {
        LatestSnapped(snapshot, last.name, before.value);
      }
      if row, prev :| row in rows && Snapped(snapshot, row.name, prev) && r in RowRegressions(row, Some(prev), t) {
        LatestSnapped(snapshot, row.name, prev);
        assert row in front || row == last;
      }
    }
  }

  lemma NoneRegresses(row: QueryResult, t: real)
    ensures RowRegressions(row, None, t) == []
  {
  }

  /**
   * Which regressions the gate lists: a metric is there, under its own name and
   * with the snapshot's value first, exactly when it fell by more than the
   * tolerance; a query's is held against the snapshot's last row of its name.
   */
  lemma RegressionsAre(current: Report, snapshot: Report, t: real, name: string, before: real, now: real)
    ensures var r := Regressions(current, snapshot, t);
            && (AggregateHit(before, now) in r <==> before == snapshot.hit && now == current.hit && now < before - t)
            && (AggregateMrr(before, now) in r <==> before == snapshot.mrr && now == current.mrr && now < before - t)
            && (QueryHit(name, before, now) in r <==>
                  && now < before - t
                  && exists row, prev :: row in current.queries && Snapped(snapshot.queries, name, prev)
                       && row.name == name && row.hit == now && prev.hit == before)
            && (QueryRank(name, before, now) in r <==>
                  && now < before - t
                  && exists row, prev :: row in current.queries && Snapped(snapshot.queries, name, prev)
                       && row.name == name && row.rr == now && prev.rr == before)
  {
    hide RowsRegressions;
    hide Snapped;
    hide Latest;
    hide RowRegressions;
    RowsRegressionsAre(current.queries, snapshot.queries, t, AggregateHit(before, now));
    RowsRegressionsAre(current.queries, snapshot.queries, t, AggregateMrr(before, now));
    RowsRegressionsAre(current.queries, snapshot.queries, t, QueryHit(name, before, now));
    RowsRegressionsAre(current.queries, snapshot.queries, t, QueryRank(name, before, now));
    forall row, prev: QueryResult
      ensures AggregateHit(before, now) !in RowRegressions(row, Some(prev), t) && AggregateMrr(before, now) !in RowRegressions(row, Some(prev), t)
      ensures QueryHit(name, before, now) in RowRegressions(row, Some(prev), t) <==>
                row.name == name && row.hit == now && prev.hit == before && now < before - t
      ensures QueryRank(name, before, now) in RowRegressions(row, Some(prev), t) <==>
                row.name == name && row.rr == now && prev.rr == before && now < before - t
    {
      RowRegressionsAre(row, prev, t);
    }
    AggregatesFirst(current, snapshot, t);
  }

  /** Those of the means come first. */
  lemma AggregatesFirst(current: Report, snapshot: Report, t: real)
    ensures var hit, mrr := current.hit < snapshot.hit - t, current.mrr < snapshot.mrr - t;
            var top := if hit && mrr then [AggregateHit(snapshot.hit, current.hit), AggregateMrr(snapshot.mrr, current.mrr)]
                       else if hit then [AggregateHit(snapshot.hit, current.hit)]
                       else if mrr then [AggregateMrr(snapshot.mrr, current.mrr)]
                       else [];
            Regressions(current, snapshot, t) == top + RowsRegressions(current.queries, snapshot.queries, t)
  {
    hide RowsRegressions;
  }

  /** At least as good everywhere, query by query. */
  ghost predicate AtLeast(better: Report, current: Report) {
    && better.hit >= current.hit && better.mrr >= current.mrr && |better.queries| == |current.queries|
    && forall i | 0 <= i < |better.queries| :: RowAtLeast(better.queries[i], current.queries[i])
  }

  ghost predicate RowAtLeast(better: QueryResult, row: QueryResult) {
    better.name == row.name && better.hit >= row.hit && better.rr >= row.rr
  }

  /** The same metric, overall or of the same query, against the same snapshot value; now fell no further than worse. */
  predicate NoWorse(now: Regression, worse: Regression) {
    match (now, worse)
    case (AggregateHit(p, x), AggregateHit(q, y)) => p == q && x >= y
    case (AggregateMrr(p, x), AggregateMrr(q, y)) => p == q && x >= y
    case (QueryHit(m, p, x), QueryHit(n, q, y)) => m == n && p == q && x >= y
    case (QueryRank(m, p, x), QueryRank(n, q, y)) => m == n && p == q && x >= y
    case _ => false
  }

  /** a is b with some regressions left out and the others no worse. */
  ghost predicate Within(a: seq<Regression>, b: seq<Regression>) {
    || a == []
    || (b != [] && (Within(a, b[1..]) || (NoWorse(a[0], b[0]) && Within(a[1..], b[1..]))))
  }

  lemma {:induction false} WithinAppend(a: seq<Regression>, b: seq<Regression>, c: seq<Regression>, d: seq<Regression>)
    requires Within(a, b) && Within(c, d)
    ensures Within(a + c, b + d)
    decreases |b| + |d|, |a|
  {
    hide NoWorse;
    if b == [] {
      assert a + c == c && b + d == d;
    } else {
      assert (b + d)[1..] == b[1..] + d && (b + d)[0] == b[0];
      if Within(a, b[1..]) {
        WithinAppend(a, b[1..], c, d);
      } else {
        WithinAppend(a[1..], b[1..], c, d);
        assert (a + c)[1..] == a[1..] + c && (a + c)[0] == a[0];
      }
    }
  }

  lemma {:induction false} WithinIsCovered(a: seq<Regression>, b: seq<Regression>)
    requires Within(a, b)
    ensures |a| <= |b| && forall r | r in a :: exists q :: q in b && NoWorse(r, q)
  {
    hide NoWorse;
    if a != [] {
      assert b[0] in b && forall q | q in b[1..] :: q in b;
      if Within(a, b[1..]) {
        WithinIsCovered(a, b[1..]);
      } else {
        WithinIsCovered(a[1..], b[1..]);
        assert a == [a[0]] + a[1..];
      }
    }
  }

  lemma RaisingRow(better: QueryResult, row: QueryResult, before: Option<QueryResult>, t: real)
    requires RowAtLeast(better, row)
    ensures Within(RowRegressions(better, before, t), RowRegressions(row, before, t))
  {
    if before.Some? {
      var p := before.value;
      RaisingOne(if better.hit < p.hit - t then [QueryHit(row.name, p.hit, better.hit)] else [], QueryHit(row.name, p.hit, row.hit));
      RaisingOne(if better.rr < p.rr - t then [QueryRank(row.name, p.rr, better.rr)] else [], QueryRank(row.name, p.rr, row.rr));
      WithinAppend(if better.hit < p.hit - t then [QueryHit(row.name, p.hit, better.hit)] else [],
        if row.hit < p.hit - t then [QueryHit(row.name, p.hit, row.hit)] else [],
        if better.rr < p.rr - t then [QueryRank(row.name, p.rr, better.rr)] else [],
        if row.rr < p.rr - t then [QueryRank(row.name, p.rr, row.rr)] else []);
    }
  }

  lemma RaisingOne(a: seq<Regression>, worse: Regression)
    requires a == [] || (|a| == 1 && NoWorse(a[0], worse))
    ensures Within(a, [worse])
  {
  }

  lemma RaisingAggregates(better: Report, current: Report, snapshot: Report, t: real)
    requires better.hit >= current.hit && better.mrr >= current.mrr
    ensures Within(AggregateRegressions(better, snapshot, t), AggregateRegressions(current, snapshot, t))
  {
    RaisingOne(if better.hit < snapshot.hit - t then [AggregateHit(snapshot.hit, better.hit)] else [], AggregateHit(snapshot.hit, current.hit));
    RaisingOne(if better.mrr < snapshot.mrr - t then [AggregateMrr(snapshot.mrr, better.mrr)] else [], AggregateMrr(snapshot.mrr, current.mrr));
    WithinAppend(if better.hit < snapshot.hit - t then [AggregateHit(snapshot.hit, better.hit)] else [],
      if current.hit < snapshot.hit - t then [AggregateHit(snapshot.hit, current.hit)] else [],
      if better.mrr < snapshot.mrr - t then [AggregateMrr(snapshot.mrr, better.mrr)] else [],
      if current.mrr < snapshot.mrr - t then [AggregateMrr(snapshot.mrr, current.mrr)] else []);
  }

  lemma {:induction false} RaisingRows(better: seq<QueryResult>, rows: seq<QueryResult>, snapshot: seq<QueryResult>, t: real)
    requires |better| == |rows| && forall i | 0 <= i < |rows| :: RowAtLeast(better[i], rows[i])
    ensures Within(RowsRegressions(better, snapshot, t), RowsRegressions(rows, snapshot, t))
  {
    hide Within;
    hide RowRegressions;
    hide Latest;
    if rows == [] {
      NoneWithin();
    } else {
      var last := |rows| - 1;
      var before := Latest(snapshot, rows[last].name);
      RaisingRows(better[..last], rows[..last], snapshot, t);
      assert RowAtLeast(better[last], rows[last]);
      RaisingRow(better[last], rows[last], before, t);
      WithinAppend(RowsRegressions(better[..last], snapshot, t), RowsRegressions(rows[..last], snapshot, t),
        RowRegressions(better[last], before, t), RowRegressions(rows[last], before, t));
    }
  }

  lemma NoneWithin()
    ensures Within([], [])
  {
  }

  /**
   * Raising metrics never adds a regression: each one listed for the better
   * report is listed for the current one too, of the same metric and query and
   * no smaller a fall, and what passed still passes.
   */
  lemma RaisingIsSafe(better: Report, current: Report, snapshot: Report, t: real)
    requires AtLeast(better, current)
    ensures Within(Regressions(better, snapshot, t), Regressions(current, snapshot, t))
    ensures |Regressions(better, snapshot, t)| <= |Regressions(current, snapshot, t)|
    ensures forall r | r in Regressions(better, snapshot, t) :: exists q :: q in Regressions(current, snapshot, t) && NoWorse(r, q)
    ensures Passes(current, snapshot, t) ==> Passes(better, snapshot, t)
  {
    hide Within;
    hide NoWorse;
    hide Passes;
    hide AggregateRegressions;
    hide RowsRegressions;
    RaisingAggregates(better, current, snapshot, t);
    RaisingRows(better.queries, current.queries, snapshot.queries, t);
    WithinAppend(AggregateRegressions(better, snapshot, t), AggregateRegressions(current, snapshot, t),
      RowsRegressions(better.queries, snapshot.queries, t), RowsRegressions(current.queries, snapshot.queries, t));
    WithinIsCovered(Regressions(better, snapshot, t), Regressions(current, snapshot, t));
    PassesWhenNoneFound(current, snapshot, t);
    PassesWhenNoneFound(better, snapshot, t);
  }

  /**
   * What the per-query checks mean in ranks: below tolerance 1 a hit regresses
   * exactly when a query that hit no longer does, and at tolerance 0 a rank
   * regresses exactly when the first relevant result fell or was lost.
   */
  lemma GateReadsRanks(row: QueryResult, before: QueryResult, k: int, t: real)
    requires RowScored(row, k) && RowScored(before, k) && 0.0 <= t < 1.0
    ensures !Holds(row.hit, before.hit, t) <==> Hits(before.ids, before.expected, k) && !Hits(row.ids, row.expected, k)
    ensures !Holds(row.rr, before.rr, 0.0) <==>
              && Relevant(before.ids, before.expected)
              && (Relevant(row.ids, row.expected) ==> Rank(before.ids, before.expected) < Rank(row.ids, row.expected))
  {
    RankScoreOrder(row.ids, row.expected, before.ids, before.expected);
  }

  ghost predicate SameNames(a: seq<QueryResult>, b: seq<QueryResult>) {
    && |a| == |b| && (forall i | 0 <= i < |a| :: a[i].name == b[i].name)
    && forall i, j | 0 <= i < j < |b| :: b[i].name != b[j].name
  }

  /** Over the same distinct queries in the same order, the per-query checks alone imply the aggregate ones. */
  lemma QueriesDecide(current: Report, snapshot: Report, t: real)
    requires Scored(current) && Scored(snapshot) && t >= 0.0
    requires SameNames(current.queries, snapshot.queries)
    ensures Passes(current, snapshot, t) <==> RowsHold(current.queries, snapshot.queries, t)
  {
    hide Mean;
    hide RowHolds;
    hide Latest;
    var now, before := current.queries, snapshot.queries;
    if RowsHold(now, before, t) {
      forall i | 0 <= i < |now| ensures before[i].hit <= 1.0 * now[i].hit + t && before[i].rr <= 1.0 * now[i].rr + t {
        assert now[i] in now;
        SameRow(before, i, now[i], t);
      }
      MeanBound(HitsOf(before), HitsOf(now), 1.0, t);
      MeanBound(RanksOf(before), RanksOf(now), 1.0, t);
    }
  }

  lemma SameRow(before: seq<QueryResult>, i: nat, row: QueryResult, t: real)
    requires IsLast(before, i) && before[i].name == row.name && RowHolds(row, Latest(before, row.name), t)
    ensures before[i].hit <= row.hit + t && before[i].rr <= row.rr + t
  {
  }
}
