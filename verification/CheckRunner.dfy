/**
 * The check runner's sequential loop, the part of the parallel form that runs
 * after the results are in (internal/check/runner.go), and the timing history
 * both update (internal/check/timing.go). Durations are whole nanoseconds.
 */
module CheckRunner {
  import opened Wrappers

  // ------------------------------------------------------------ timing history

  datatype Timing = Timing(last: int, avg: int, runs: nat)

  /** Conversion to an integer: toward zero. */
  function Truncated(r: real): int {
    if r >= 0.0 then r.Floor else -((-r).Floor)
  }

  /** v is 0.3 * duration + 0.7 * avg, off by less than 0.3 and then cut to an integer. */
  ghost predicate Rounded(duration: int, avg: int, v: int) {
    exists r: real :: Truncated(r) == v && Near(r, duration, avg)
  }

  predicate Near(r: real, duration: int, avg: int) {
    var exact := (3 * duration + 7 * avg) as real / 10.0;
    exact - 0.3 < r < exact + 0.3
  }

  /** Three days of nanoseconds; up to this, float64 computes the weighted sum to within 0.3. */
  const LONGEST := 0x1_0000_0000_0000

  ghost predicate Weighted(blend: (int, int) -> int) {
    forall d, a | 0 <= d <= LONGEST && 0 <= a <= LONGEST :: Rounded(d, a, blend(d, a))
  }

  /**
   * A way to compute the weighted sum in float64 and convert it to whole
   * nanoseconds: with a fused multiplication and addition or without, as the
   * compiler chooses.
   */
  type Blend = blend: (int, int) -> int | Weighted(blend) witness (FloatIsWeighted(); FloatBlend)

  // The sum without fusing. Doubles are held as whole multiples of 2 to the power -54.

  const P52 := 0x10_0000_0000_0000
  const P53 := 0x20_0000_0000_0000
  const P54 := 0x40_0000_0000_0000

  /** The double nearest to 0.3, and what 1 less it rounds to. */
  const ALPHA := 5404319552844595
  const BETA := 12610078956637388

  /** The distance between doubles around n. */
  function Unit(n: nat): (u: nat)
    ensures u >= 1 && (u == 1 || u * P52 <= n)
  {
    if n < P53 then 1 else 2 * Unit(n / 2)
  }

  /** The multiple of unit nearest to n, the even one of two. */
  function Nearest(n: nat, unit: nat): nat
    requires unit > 0
  {
    var q, r := n / unit, n % unit;
    if 2 * r < unit || (2 * r == unit && q % 2 == 0) then q * unit else (q + 1) * unit
  }

  function Double(n: nat): nat {
    Nearest(n, Unit(n))
  }

  function FloatSum(duration: nat, avg: nat): nat {
    Double(Double(ALPHA * duration) + Double(BETA * avg))
  }

  function FloatBlend(duration: int, avg: int): int {
    if duration < 0 || avg < 0 then 0 else FloatSum(duration, avg) / P54
  }

  lemma NearestIsNear(n: nat, unit: nat)
    requires unit > 0
    ensures 2 * (Nearest(n, unit) - n) <= unit && 2 * (n - Nearest(n, unit)) <= unit
  {
    var q, r := n / unit, n % unit;
    assert n == q * unit + r;
    assert (q + 1) * unit == q * unit + unit;
  }

  lemma DoubleIsNear(n: nat)
    ensures P53 * (Double(n) - n) <= n + P52 && P53 * (n - Double(n)) <= n + P52
  {
    NearestIsNear(n, Unit(n));
  }

  lemma FloatSumIsNear(duration: nat, avg: nat)
    requires duration <= LONGEST && avg <= LONGEST
    ensures -3 * P54 < 10 * FloatSum(duration, avg) - (3 * duration + 7 * avg) * P54 < 3 * P54
  {
    var x, y := ALPHA * duration, BETA * avg;
    DoubleIsNear(x);
    DoubleIsNear(y);
    DoubleIsNear(Double(x) + Double(y));
  }

  lemma QuotientFloor(n: nat, m: nat)
    requires m > 0
    ensures (n as real / m as real).Floor == n / m
  {
    var q, r := n / m, n as real / m as real;
    assert q * m <= n < (q + 1) * m;
    assert r * m as real == n as real;
    assert (r - q as real) * m as real == (n - q * m) as real;
    assert ((q + 1) as real - r) * m as real == ((q + 1) * m - n) as real;
    assert r >= q as real && r < (q + 1) as real;
  }

  lemma FloatRounds(duration: nat, avg: nat)
    requires duration <= LONGEST && avg <= LONGEST
    ensures Rounded(duration, avg, FloatBlend(duration, avg))
  {
    var n := FloatSum(duration, avg);
    FloatSumIsNear(duration, avg);
    QuotientFloor(n, P54);
    var r := n as real / P54 as real;
    var e := 3 * duration + 7 * avg;
    assert 10.0 * n as real == 10.0 * r * P54 as real;
    assert Near(r, duration, avg) by {
      assert -3.0 * P54 as real < (10.0 * r - e as real) * P54 as real < 3.0 * P54 as real;
    }
  }

  lemma FloatIsWeighted()
    ensures Weighted(FloatBlend)
  {
    forall d, a | 0 <= d <= LONGEST && 0 <= a <= LONGEST ensures Rounded(d, a, FloatBlend(d, a)) {
      FloatRounds(d, a);
    }
  }

  function Averaged(blend: Blend, avg: int, duration: int): int {
    if avg == 0 then duration else blend(duration, avg)
  }

  function Updated(blend: Blend, t: Timing, duration: int): Timing {
    Timing(duration, Averaged(blend, t.avg, duration), t.runs + 1)
  }

  function Recorded(blend: Blend, history: map<string, Timing>, name: string, duration: int): map<string, Timing> {
    history[name := Updated(blend, if name in history then history[name] else Timing(0, 0, 0), duration)]
  }

  lemma RoundedStaysNear(duration: int, avg: int, v: int, low: nat, high: nat)
    requires Rounded(duration, avg, v) && low <= duration <= high && low - 1 <= avg <= high && 0 <= avg
    ensures low - 1 <= v <= high && 0 <= v
  {
    var r: real :| Truncated(r) == v && Near(r, duration, avg);
    assert (3 * duration + 7 * avg) >= 10 * low - 7 && (3 * duration + 7 * avg) <= 10 * high;
    assert low as real - 1.0 < r < high as real + 1.0;
  }

  /**
   * One duration recorded, said of the histories before and after: the entry is
   * one run further and holds the duration, its average is the duration when it
   * had none and else the rounded weighted sum, and every other entry is as it was.
   */
  ghost predicate OneRecorded(before: map<string, Timing>, after: map<string, Timing>, name: string, duration: int) {
    && (forall n :: n in after <==> n == name || n in before)
    && (forall n | n in before && n != name :: after[n] == before[n])
    && after[name].last == duration
    && after[name].runs == (if name in before then before[name].runs else 0) + 1
    && (name !in before || before[name].avg == 0 ==> after[name].avg == duration)
    && (name in before && before[name].avg != 0 && 0 <= before[name].avg <= LONGEST && 0 <= duration <= LONGEST ==>
          Rounded(duration, before[name].avg, after[name].avg))
  }

  lemma RecordedOnce(blend: Blend, before: map<string, Timing>, name: string, duration: int)
    ensures OneRecorded(before, Recorded(blend, before, name, duration), name, duration)
  {
    hide Rounded;
    if name in before && 0 <= before[name].avg <= LONGEST && 0 <= duration <= LONGEST {
      assert Rounded(duration, before[name].avg, blend(duration, before[name].avg));
    }
  }

  /** An average of 100 and a duration of 200 give 130, or one less for the rounding: not 170. */
  lemma WeightsInOrder(blend: Blend)
    ensures 129 <= Averaged(blend, 100, 200) <= 130
  {
    assert Rounded(200, 100, blend(200, 100));
    var r: real :| Truncated(r) == blend(200, 100) && Near(r, 200, 100);
    assert 129.7 < r < 130.3;
  }

  /** The average after a run of durations. */
  function AverageOf(blend: Blend, durations: seq<int>): int {
    if durations == [] then 0 else Averaged(blend, AverageOf(blend, durations[..|durations| - 1]), durations[|durations| - 1])
  }

  /**
   * Over any run of durations, up to three days each, the average stays in
   * their range or one nanosecond below it, however the sum is rounded.
   */
  lemma {:induction false} AverageStaysBetween(blend: Blend, durations: seq<int>, low: nat, high: nat)
    requires durations != [] && high <= LONGEST && forall d | d in durations :: low <= d <= high
    ensures low - 1 <= AverageOf(blend, durations) <= high && 0 <= AverageOf(blend, durations)
  {
    var n := |durations| - 1;
    var d := durations[n];
    assert d in durations;
    if n > 0 {
      assert forall e | e in durations[..n] :: e in durations;
      AverageStaysBetween(blend, durations[..n], low, high);
      var avg := AverageOf(blend, durations[..n]);
      if avg != 0 {
        RoundedStaysNear(d, avg, blend(d, avg), low, high);
      }
    }
  }

  /** The one below is needed: in doubles, three nanoseconds on an average of three give two. */
  lemma RoundingLeavesTheRange()
    ensures FloatBlend(3, 3) == 2
  {
    assert Unit(3 * ALPHA) == 2 && Double(3 * ALPHA) == 16212958658533784;
    var y := 3 * BETA;
    assert Unit(y / 4) == 2;
    assert Unit(y / 2) == 4 && Unit(y) == 8 && Double(y) == 37830236869912160;
    assert Unit(54043195528445944) == 8 && Double(54043195528445944) == 54043195528445944;
  }

  /** ALPHA is as near to 0.3 as a double gets, and BETA what the subtraction from 1 rounds to. */
  lemma WeightsAreDoubles()
    ensures -5 <= 10 * ALPHA - 3 * P54 <= 5 && Double(P54 - ALPHA) == BETA
  {
    assert Unit(P54 - ALPHA) == 2;
  }

  class TimingEntry {
    var last: int
    var avg: int
    var runs: nat

    constructor ()
      ensures View() == Timing(0, 0, 0)
    {
      last, avg, runs := 0, 0, 0;
    }

    function View(): Timing
      reads this
    {
      Timing(last, avg, runs)
    }

    method Update(blend: Blend, duration: int)
      modifies this
      ensures View() == Updated(blend, old(View()), duration)
    {
      last := duration;
      runs := runs + 1;
      if avg == 0 {
        avg := duration;
      } else {
        avg := blend(duration, avg);
      }
    }
  }

  class TimingHistory {
    const blend: Blend
    var checks: map<string, TimingEntry>

    constructor (blend: Blend)
      ensures Valid() && View() == map[] && this.blend == blend
    {
      this.blend, checks := blend, map[];
    }

    /** No two names share an entry. */
    ghost predicate Valid()
      reads this
    {
      forall a, b | a in checks && b in checks && a != b :: checks[a] != checks[b]
    }

    function View(): map<string, Timing>
      reads this, checks.Values
    {
      map n | n in checks :: checks[n].View()
    }

    /** The entry of a name, made if it is not there. */
    method Entry(name: string) returns (t: TimingEntry)
      requires Valid()
      modifies this
      ensures Valid() && name in checks && t == checks[name] && fresh(checks.Values - old(checks.Values))
      ensures View() == old(View())[name := if name in old(checks) then old(View())[name] else Timing(0, 0, 0)]
    {
      if name !in checks {
        t := new TimingEntry();
        checks := checks[name := t];
      }
      t := checks[name];
    }

    method UpdateEntry(name: string, duration: int)
      requires Valid() && name in checks
      modifies checks[name]
      ensures View() == old(View())[name := Updated(blend, old(View())[name], duration)]
    {
      hide Updated;
      checks[name].Update(blend, duration);
      assert forall n | n in checks && n != name :: checks[n] != checks[name];
    }

    method RecordDuration(name: string, duration: int)
      requires Valid()
      modifies this, checks.Values
      ensures Valid() && fresh(checks.Values - old(checks.Values))
      ensures View() == Recorded(blend, old(View()), name, duration)
      ensures OneRecorded(old(View()), View(), name, duration)
    {
      hide Updated;
      hide Recorded;
      hide OneRecorded;
      ghost var before := View();
      RecordedOnce(blend, before, name, duration);
      var _ := Entry(name);
      RecordedIs(blend, before, View(), name, duration);
      UpdateEntry(name, duration);
    }
  }

  lemma RecordedIs(blend: Blend, before: map<string, Timing>, found: map<string, Timing>, name: string, duration: int)
    requires found == before[name := if name in before then before[name] else Timing(0, 0, 0)]
    ensures found[name := Updated(blend, found[name], duration)] == Recorded(blend, before, name, duration)
  {
  }

  // ------------------------------------------------------------ results

  datatype CheckItem = CheckItem(name: string, remediation: string)

  datatype Category = Category(name: string, checks: seq<CheckItem>)

  /** What running a check gives: its error, if any, and how long it took. */
  datatype Outcome = Outcome(err: Option<string>, duration: int)

  datatype CheckResult = CheckResult(name: string, category: string, passed: bool, duration: int, err: Option<string>, remediation: string)

  function ResultOf(category: Category, i: nat, o: Outcome): CheckResult
    requires i < |category.checks|
  {
    CheckResult(category.checks[i].name, category.name, o.err.None?, o.duration, o.err, category.checks[i].remediation)
  }

  /** The results of the first n checks. */
  function Results(category: Category, outcomes: seq<Outcome>, n: nat): (r: seq<CheckResult>)
    requires n <= |outcomes| == |category.checks|
    ensures |r| == n && forall i | 0 <= i < n :: r[i] == ResultOf(category, i, outcomes[i])
  {
    seq(n, i requires 0 <= i < n => ResultOf(category, i, outcomes[i]))
  }

  /** The results of the checks that ran, field by field. */
  ghost predicate ResultsSay(category: Category, outcomes: seq<Outcome>, n: nat, results: seq<CheckResult>)
    requires n <= |outcomes| == |category.checks|
  {
    && |results| == n
    && forall i | 0 <= i < n ::
         && results[i].name == category.checks[i].name && results[i].remediation == category.checks[i].remediation
         && results[i].category == category.name
         && results[i].duration == outcomes[i].duration && results[i].err == outcomes[i].err
         && (results[i].passed <==> outcomes[i].err == None)
  }

  lemma ResultsSaySo(category: Category, outcomes: seq<Outcome>, n: nat)
    requires n <= |outcomes| == |category.checks|
    ensures ResultsSay(category, outcomes, n, Results(category, outcomes, n))
  {
  }

  /** The calls to onDone that report results, in order. */
  function Reports(results: seq<CheckResult>): (r: seq<(nat, CheckResult)>)
    ensures |r| == |results| && forall i | 0 <= i < |results| :: r[i] == (i, results[i])
  {
    seq(|results|, i requires 0 <= i < |results| => (i, results[i]))
  }

  function RecordedAll(blend: Blend, category: Category, outcomes: seq<Outcome>, n: nat, history: map<string, Timing>): map<string, Timing>
    requires n <= |outcomes| == |category.checks|
  {
    if n == 0 then history
    else Recorded(blend, RecordedAll(blend, category, outcomes, n - 1, history), category.checks[n - 1].name, outcomes[n - 1].duration)
  }

  /** Check i is the last of those that ran with its name. */
  ghost predicate LastOfName(category: Category, n: nat, i: int)
    requires n <= |category.checks|
  {
    0 <= i < n && forall j | i < j < n :: category.checks[j].name != category.checks[i].name
  }

  /** After a run each name's entry holds the duration of its last check, and a name no check had is as it was. */
  lemma {:induction false} RunRecords(blend: Blend, category: Category, outcomes: seq<Outcome>, n: nat, history: map<string, Timing>)
    requires n <= |outcomes| == |category.checks|
    ensures var after := RecordedAll(blend, category, outcomes, n, history);
            && (forall i | LastOfName(category, n, i) :: category.checks[i].name in after && after[category.checks[i].name].last == outcomes[i].duration)
            && (forall name | forall i | 0 <= i < n :: category.checks[i].name != name ::
                  (name in after <==> name in history) && (name in history ==> after[name] == history[name]))
  {
    hide Recorded;
    hide Rounded;
    if n > 0 {
      RunRecords(blend, category, outcomes, n - 1, history);
      RecordedOnce(blend, RecordedAll(blend, category, outcomes, n - 1, history), category.checks[n - 1].name, outcomes[n - 1].duration);
      forall i | LastOfName(category, n, i) && i < n - 1 ensures LastOfName(category, n - 1, i) && category.checks[n - 1].name != category.checks[i].name {
      }
    }
  }

  /** How many checks the sequential form runs: with fail-fast, up to and including the first failure. */
  function RunCount(outcomes: seq<Outcome>, failFast: bool): (n: nat)
    ensures n <= |outcomes|
    ensures forall i | 0 <= i < n - 1 :: failFast ==> outcomes[i].err.None?
    ensures n < |outcomes| ==> failFast && n > 0 && outcomes[n - 1].err.Some?
  {
    if outcomes == [] then 0
    else if failFast && outcomes[0].err.Some? then 1
    else
      var rest := RunCount(outcomes[1..], failFast);
      assert forall i | 0 < i < |outcomes| :: outcomes[i] == outcomes[1..][i - 1];
      1 + rest
  }

  /** categoryErr is the error of a check that failed; which one differs between the two forms. */
  ghost predicate IsLastError(outcomes: seq<Outcome>, n: nat, err: Option<string>)
    requires n <= |outcomes|
  {
    match err
    case None => forall i | 0 <= i < n :: outcomes[i].err.None?
    case Some(_) => exists i :: 0 <= i < n && outcomes[i].err == err && forall j | i < j < n :: outcomes[j].err.None?
  }

  ghost predicate IsFirstError(outcomes: seq<Outcome>, n: nat, err: Option<string>)
    requires n <= |outcomes|
  {
    match err
    case None => forall i | 0 <= i < n :: outcomes[i].err.None?
    case Some(_) => exists i :: 0 <= i < n && outcomes[i].err == err && forall j | 0 <= j < i :: outcomes[j].err.None?
  }

  lemma NothingYet(blend: Blend, category: Category, outcomes: seq<Outcome>, history: map<string, Timing>)
    requires |outcomes| == |category.checks|
    ensures RecordedAll(blend, category, outcomes, 0, history) == history
    ensures Results(category, outcomes, 0) == [] && Reports([]) == []
    ensures IsLastError(outcomes, 0, None) && IsFirstError(outcomes, 0, None)
  {
  }

  lemma OneMoreCheck(blend: Blend, category: Category, outcomes: seq<Outcome>, i: nat, history: map<string, Timing>)
    requires i < |outcomes| == |category.checks|
    ensures RecordedAll(blend, category, outcomes, i + 1, history)
            == Recorded(blend, RecordedAll(blend, category, outcomes, i, history), category.checks[i].name, outcomes[i].duration)
    ensures var r := CheckResult(category.checks[i].name, category.name, outcomes[i].err.None?, outcomes[i].duration, outcomes[i].err, category.checks[i].remediation);
            && Results(category, outcomes, i + 1) == Results(category, outcomes, i) + [r]
            && Reports(Results(category, outcomes, i + 1)) == Reports(Results(category, outcomes, i)) + [(i, r)]
  {
  }

  lemma LastErrorStep(outcomes: seq<Outcome>, i: nat, err: Option<string>)
    requires i < |outcomes| && IsLastError(outcomes, i, err)
    ensures IsLastError(outcomes, i + 1, if outcomes[i].err.Some? then outcomes[i].err else err)
  {
  }

  lemma FirstErrorStep(outcomes: seq<Outcome>, i: nat, err: Option<string>)
    requires i < |outcomes| && IsFirstError(outcomes, i, err)
    ensures IsFirstError(outcomes, i + 1, if outcomes[i].err.Some? && err.None? then outcomes[i].err else err)
  {
  }

  class Runner {
    const timings: TimingHistory

    constructor (timings: TimingHistory)
      ensures this.timings == timings
    {
      this.timings := timings;
    }

    /** runChecksSequential: outcomes[i] is what check i gives if it runs. */
    method RunChecksSequential(category: Category, outcomes: seq<Outcome>, failFast: bool)
      returns (results: seq<CheckResult>, err: Option<string>, reports: seq<(nat, CheckResult)>)
      requires |outcomes| == |category.checks| && timings.Valid()
      modifies timings, timings.checks.Values
      ensures timings.Valid()
      ensures results == Results(category, outcomes, RunCount(outcomes, failFast)) && reports == Reports(results)
      ensures IsLastError(outcomes, RunCount(outcomes, failFast), err)
      ensures timings.View() == RecordedAll(timings.blend, category, outcomes, RunCount(outcomes, failFast), old(timings.View()))
      ensures ResultsSay(category, outcomes, RunCount(outcomes, failFast), results)
    {
      hide Recorded;
      hide RecordedAll;
      hide IsLastError;
      hide ResultOf;
      hide Results;
      hide Reports;
      hide ResultsSay;
      ResultsSaySo(category, outcomes, RunCount(outcomes, failFast));
      results, err, reports := [], None, [];
      ghost var history := timings.View();
      NothingYet(timings.blend, category, outcomes, history);
      assert outcomes[0..] == outcomes;
      var i := 0;
      while i < |category.checks|
        invariant i <= |category.checks| && i + RunCount(outcomes[i..], failFast) == RunCount(outcomes, failFast)
        invariant timings.Valid() && fresh(timings.checks.Values - old(timings.checks.Values))
        invariant results == Results(category, outcomes, i) && reports == Reports(results)
        invariant IsLastError(outcomes, i, err)
        invariant timings.View() == RecordedAll(timings.blend, category, outcomes, i, history)
      {
        var check := category.checks[i];
        var o := outcomes[i];
        timings.RecordDuration(check.name, o.duration);
        var result := CheckResult(check.name, category.name, o.err.None?, o.duration, o.err, check.remediation);
        LastErrorStep(outcomes, i, err);
        if o.err.Some? {
          err := o.err;
        }
        OneMoreCheck(timings.blend, category, outcomes, i, history);
        results := results + [result];
        reports := reports + [(i, result)];
        assert outcomes[i..][1..] == outcomes[i + 1..];
        i := i + 1;
        if o.err.Some? && failFast {
          break;
        }
      }
    }

    /** runChecksParallel once every result is in place: ordered[i] is what check i gave. */
    method ReportParallel(category: Category, ordered: seq<Outcome>)
      returns (results: seq<CheckResult>, err: Option<string>, reports: seq<(nat, CheckResult)>)
      requires |ordered| == |category.checks| && timings.Valid()
      modifies timings, timings.checks.Values
      ensures timings.Valid()
      ensures results == Results(category, ordered, |ordered|) && reports == Reports(results)
      ensures IsFirstError(ordered, |ordered|, err)
      ensures timings.View() == RecordedAll(timings.blend, category, ordered, |ordered|, old(timings.View()))
      ensures ResultsSay(category, ordered, |ordered|, results)
    {
      hide Recorded;
      hide RecordedAll;
      hide IsFirstError;
      hide ResultOf;
      hide Results;
      hide Reports;
      hide ResultsSay;
      ResultsSaySo(category, ordered, |ordered|);
      results, err, reports := [], None, [];
      ghost var history := timings.View();
      NothingYet(timings.blend, category, ordered, history);
      for i := 0 to |category.checks|
        invariant timings.Valid() && fresh(timings.checks.Values - old(timings.checks.Values))
        invariant results == Results(category, ordered, i) && reports == Reports(results)
        invariant IsFirstError(ordered, i, err)
        invariant timings.View() == RecordedAll(timings.blend, category, ordered, i, history)
      {
        var check := category.checks[i];
        var o := ordered[i];
        timings.RecordDuration(check.name, o.duration);
        var result := CheckResult(check.name, category.name, o.err.None?, o.duration, o.err, check.remediation);
        FirstErrorStep(ordered, i, err);
        OneMoreCheck(timings.blend, category, ordered, i, history);
        if o.err.Some? && err.None? {
          err := o.err;
        }
        results := results + [result];
        reports := reports + [(i, result)];
      }
    }
  }

  /** The two forms agree on whether the category failed; on which error they report, they may not. */
  lemma ErrorsAgree(outcomes: seq<Outcome>, sequential: Option<string>, parallel: Option<string>)
    requires IsLastError(outcomes, |outcomes|, sequential) && IsFirstError(outcomes, |outcomes|, parallel)
    ensures sequential.Some? == parallel.Some?
    ensures (forall i, j | 0 <= i < |outcomes| && 0 <= j < |outcomes| && outcomes[i].err.Some? && outcomes[j].err.Some? :: i == j)
            ==> sequential == parallel
  {
  }

  /** Without fail-fast the sequential form runs every check. */
  lemma {:induction false} AllRun(outcomes: seq<Outcome>)
    ensures RunCount(outcomes, false) == |outcomes|
  {
  }
}
