/**
 * runChecksParallel as a step relation (internal/check/runner.go:135-176): one
 * goroutine a check, a channel with room for every result, a goroutine that
 * closes it when all are done, the collecting loop, and the shared cancelable
 * context. A run is any sequence of steps; the theorems are about all of them.
 */
module ParallelChecks {
  import opened Wrappers
  import opened CheckRunner

  /** A check's outcome, and whether the check saw its context cancelled. */
  datatype Finish = Finish(outcome: Outcome, saw: bool)

  datatype Goroutine =
    | NotStarted
    | Running                // inside item.fn(runCtx)
    | Returned(f: Finish)    // the check returned; a fail-fast failure cancels next
    | Ready(f: Finish)       // about to send
    | Sent                   // the deferred wg.Done is still to run
    | Exited

  datatype Message = Message(index: nat, f: Finish)

  datatype State = State(
    started: nat, gs: seq<Goroutine>, waiting: int, closer: bool, closed: bool,
    channel: seq<Message>, ordered: seq<Option<Finish>>, collected: bool,
    cancelled: bool, parentCancelled: bool)

  datatype Action =
    | Start | StartCloser | Return(i: nat, f: Finish) | Cancel(i: nat) | Send(i: nat) | Done(i: nat)
    | Close | Receive | EndOfChannel | ParentCancel

  function Initial(n: nat): State {
    State(0, seq(n, _ => NotStarted), 0, false, false, [], seq(n, _ => None), false, false, false)
  }

  predicate Failed(f: Finish) {
    f.outcome.err.Some?
  }

  function N(s: State): nat {
    |s.gs|
  }

  predicate Enabled(failFast: bool, s: State, a: Action) {
    match a
    case Start => s.started < N(s)
    case StartCloser => s.started == N(s) && !s.closer
    case Return(i, f) => i < N(s) && s.gs[i].Running? && (f.saw ==> s.cancelled || s.parentCancelled)
    case Cancel(i) => i < N(s) && s.gs[i].Returned?
    case Send(i) => i < N(s) && s.gs[i].Ready? && |s.channel| < N(s)
    case Done(i) => i < N(s) && s.gs[i].Sent?
    case Close => s.closer && !s.closed && s.waiting == 0
    case Receive => s.closer && !s.collected && s.channel != [] && s.channel[0].index < |s.ordered|
    case EndOfChannel => s.closer && !s.collected && s.channel == [] && s.closed
    case ParentCancel => !s.parentCancelled
  }

  /** The deferred cancel runs as the function returns, after EndOfChannel. */
  function Step(failFast: bool, s: State, a: Action): State
    requires Enabled(failFast, s, a)
    requires |s.ordered| == N(s)
  {
    match a
    case Start => s.(started := s.started + 1, waiting := s.waiting + 1, gs := s.gs[s.started := Running])
    case StartCloser => s.(closer := true)
    case Return(i, f) => s.(gs := s.gs[i := Returned(f)])
    case Cancel(i) =>
      var f := s.gs[i].f;
      s.(gs := s.gs[i := Ready(f)], cancelled := s.cancelled || (Failed(f) && failFast))
    case Send(i) => s.(gs := s.gs[i := Sent], channel := s.channel + [Message(i, s.gs[i].f)])
    case Done(i) => s.(gs := s.gs[i := Exited], waiting := s.waiting - 1)
    case Close => s.(closed := true)
    case Receive => s.(ordered := s.ordered[s.channel[0].index := Some(s.channel[0].f)], channel := s.channel[1..])
    case EndOfChannel => s.(collected := true, cancelled := true)
    case ParentCancel => s.(parentCancelled := true)
  }

  // ------------------------------------------------------------ the invariant

  predicate Live(g: Goroutine) {
    !g.NotStarted? && !g.Exited?
  }

  function LiveCount(gs: seq<Goroutine>): nat {
    if gs == [] then 0 else LiveCount(gs[..|gs| - 1]) + (if Live(gs[|gs| - 1]) then 1 else 0)
  }

  /** The check's finish, once it has one: in the goroutine, then in the channel, then in its slot. */
  ghost predicate Delivered(s: State, i: nat, f: Finish)
    requires i < N(s) == |s.ordered|
  {
    s.gs[i] == Returned(f) || s.gs[i] == Ready(f) || s.ordered[i] == Some(f) || Message(i, f) in s.channel
  }

  predicate HasSent(g: Goroutine) {
    g.Sent? || g.Exited?
  }

  ghost predicate Inv(s: State) {
    && |s.ordered| == N(s) && s.started <= N(s)
    && (forall i | 0 <= i < N(s) :: s.gs[i].NotStarted? <==> s.started <= i)
    && s.waiting == LiveCount(s.gs)
    && (s.closer ==> s.started == N(s))
    && (s.closed ==> s.closer && s.waiting == 0)
    && (s.collected ==> s.closed && s.channel == [])
    && Messages(s)
  }

  /** Each goroutine that has sent has its message in exactly one place, and no other has any. */
  ghost predicate Messages(s: State)
    requires |s.ordered| == N(s)
  {
    && (forall k | 0 <= k < |s.channel| :: s.channel[k].index < N(s))
    && (forall k, l | 0 <= k < l < |s.channel| :: s.channel[k].index != s.channel[l].index)
    && (forall k | 0 <= k < |s.channel| :: HasSent(s.gs[s.channel[k].index]) && s.ordered[s.channel[k].index].None?)
    && (forall i | 0 <= i < N(s) :: s.ordered[i].Some? ==> HasSent(s.gs[i]))
    && (forall i | 0 <= i < N(s) :: HasSent(s.gs[i]) ==> s.ordered[i].Some? || InChannel(s, i))
  }

  ghost predicate InChannel(s: State, i: nat) {
    exists k :: 0 <= k < |s.channel| && s.channel[k].index == i
  }

  lemma {:induction false} LiveCountUpdate(gs: seq<Goroutine>, i: nat, g: Goroutine)
    requires i < |gs|
    ensures LiveCount(gs[i := g]) == LiveCount(gs) - (if Live(gs[i]) then 1 else 0) + (if Live(g) then 1 else 0)
  {
    var last := |gs| - 1;
    if i < last {
      LiveCountUpdate(gs[..last], i, g);
      assert gs[i := g][..last] == gs[..last][i := g];
    } else {
      assert gs[i := g][..last] == gs[..last];
    }
  }

  lemma {:induction false} LiveCountZero(gs: seq<Goroutine>)
    ensures LiveCount(gs) == 0 <==> forall i | 0 <= i < |gs| :: !Live(gs[i])
  {
    if gs != [] {
      LiveCountZero(gs[..|gs| - 1]);
    }
  }

  lemma {:induction false} InitialHasNoneLive(n: nat)
    ensures LiveCount(seq(n, _ => NotStarted)) == 0
  {
    LiveCountZero(seq(n, _ => NotStarted));
  }

  lemma InitialInv(n: nat)
    ensures Inv(Initial(n))
  {
    InitialHasNoneLive(n);
  }

  lemma SendKeepsMessages(s: State, t: State, i: nat)
    requires |s.ordered| == N(s) && Messages(s) && i < N(s) && s.gs[i].Ready?
    requires t == s.(gs := s.gs[i := Sent], channel := s.channel + [Message(i, s.gs[i].f)])
    ensures Messages(t)
  {
    var last := |s.channel|;
    assert t.channel[last] == Message(i, s.gs[i].f);
    assert forall k | 0 <= k < last :: t.channel[k] == s.channel[k] && s.channel[k].index != i;
    forall j | 0 <= j < N(t) && HasSent(t.gs[j]) ensures t.ordered[j].Some? || InChannel(t, j) {
      if j != i && s.ordered[j].None? {
        assert InChannel(s, j);
      }
    }
  }

  lemma ReceiveKeepsMessages(s: State, t: State)
    requires |s.ordered| == N(s) && Messages(s) && s.channel != []
    requires t == s.(ordered := s.ordered[s.channel[0].index := Some(s.channel[0].f)], channel := s.channel[1..])
    ensures Messages(t)
  {
    assert forall k | 0 <= k < |t.channel| :: t.channel[k] == s.channel[k + 1];
    forall j | 0 <= j < N(t) && HasSent(t.gs[j]) ensures t.ordered[j].Some? || InChannel(t, j) {
      if s.ordered[j].None? && j != s.channel[0].index {
        var k :| 0 <= k < |s.channel| && s.channel[k].index == j;
        assert t.channel[k - 1].index == j;
      }
    }
  }

  /** A step of one goroutine that sends nothing. */
  lemma QuietKeepsMessages(s: State, t: State)
    requires |s.ordered| == N(s) && Messages(s)
    requires t.channel == s.channel && t.ordered == s.ordered && N(t) == N(s)
    requires forall i | 0 <= i < N(s) :: HasSent(t.gs[i]) == HasSent(s.gs[i])
    ensures Messages(t)
  {
  }

  lemma StepKeepsInv(failFast: bool, s: State, a: Action)
    requires Inv(s) && Enabled(failFast, s, a)
    ensures Inv(Step(failFast, s, a))
  {
    hide Messages;
    hide LiveCount;
    FirstInRange(s);
    LiveCountZero(s.gs);
    StepKeepsMessages(failFast, s, a);
    StepKeepsCounts(failFast, s, a);
  }

  lemma FirstInRange(s: State)
    requires |s.ordered| == N(s) && Messages(s)
    ensures s.channel != [] ==> s.channel[0].index < N(s)
  {
  }

  lemma StepKeepsMessages(failFast: bool, s: State, a: Action)
    requires Inv(s) && Enabled(failFast, s, a)
    ensures |Step(failFast, s, a).ordered| == N(Step(failFast, s, a)) && Messages(Step(failFast, s, a))
  {
    hide Messages;
    hide LiveCount;
    FirstInRange(s);
    var t := Step(failFast, s, a);
    if a.Send? {
      SendKeepsMessages(s, t, a.i);
    } else if a.Receive? {
      ReceiveKeepsMessages(s, t);
    } else {
      QuietStep(failFast, s, a);
      QuietKeepsMessages(s, t);
    }
  }

  lemma UpdateKeepsSent(gs: seq<Goroutine>, k: nat, g: Goroutine)
    requires k < |gs| && HasSent(g) == HasSent(gs[k])
    ensures forall i | 0 <= i < |gs| :: HasSent(gs[k := g][i]) == HasSent(gs[i])
  {
    hide HasSent;
  }

  lemma QuietStep(failFast: bool, s: State, a: Action)
    requires |s.ordered| == N(s) && s.started <= N(s) && Enabled(failFast, s, a) && !a.Send? && !a.Receive?
    requires forall i | 0 <= i < N(s) :: s.gs[i].NotStarted? <==> s.started <= i
    ensures var t := Step(failFast, s, a);
            t.channel == s.channel && t.ordered == s.ordered && N(t) == N(s) && forall i | 0 <= i < N(s) :: HasSent(t.gs[i]) == HasSent(s.gs[i])
  {
    match a {
      case Start => UpdateKeepsSent(s.gs, s.started, Running);
      case Return(i, f) => UpdateKeepsSent(s.gs, i, Returned(f));
      case Cancel(i) => UpdateKeepsSent(s.gs, i, Ready(s.gs[i].f));
      case Done(i) => UpdateKeepsSent(s.gs, i, Exited);
      case _ =>
    }
    hide HasSent;
  }

  lemma StepKeepsCounts(failFast: bool, s: State, a: Action)
    requires Inv(s) && Enabled(failFast, s, a)
    ensures Step(failFast, s, a).waiting == LiveCount(Step(failFast, s, a).gs)
    ensures s.closed ==> Step(failFast, s, a).waiting == 0
  {
    hide Messages;
    LiveCountZero(s.gs);
    match a {
      case Start => LiveCountUpdate(s.gs, s.started, Running);
      case Return(i, f) => LiveCountUpdate(s.gs, i, Returned(f));
      case Cancel(i) => LiveCountUpdate(s.gs, i, Ready(s.gs[i].f));
      case Send(i) => LiveCountUpdate(s.gs, i, Sent);
      case Done(i) => LiveCountUpdate(s.gs, i, Exited);
      case _ =>
    }
  }

  // ------------------------------------------------------------ runs

  ghost predicate ValidRun(failFast: bool, s: State, run: seq<Action>)
    requires Inv(s)
    decreases |run|
  {
    run != [] ==>
      Enabled(failFast, s, run[0]) && (StepKeepsInv(failFast, s, run[0]); ValidRun(failFast, Step(failFast, s, run[0]), run[1..]))
  }

  ghost function After(failFast: bool, s: State, run: seq<Action>): (t: State)
    requires Inv(s) && ValidRun(failFast, s, run)
    ensures Inv(t) && N(t) == N(s)
    decreases |run|
  {
    if run == [] then s
    else
      StepKeepsInv(failFast, s, run[0]);
      After(failFast, Step(failFast, s, run[0]), run[1..])
  }

  /** A run of n checks from the call of runChecksParallel: any order its steps can come in. */
  ghost predicate Interleaving(failFast: bool, n: nat, run: seq<Action>) {
    InitialInv(n);
    ValidRun(failFast, Initial(n), run)
  }

  ghost function Reached(failFast: bool, n: nat, run: seq<Action>): (t: State)
    requires Interleaving(failFast, n, run)
    ensures Inv(t) && N(t) == n
  {
    InitialInv(n);
    After(failFast, Initial(n), run)
  }

  // ------------------------------------------------------------ every run ends, and none is stuck

  function GoroutineRank(g: Goroutine): nat {
    match g case NotStarted => 6 case Running => 5 case Returned(_) => 4 case Ready(_) => 3 case Sent => 1 case Exited => 0
  }

  function Ranks(gs: seq<Goroutine>): nat {
    if gs == [] then 0 else Ranks(gs[..|gs| - 1]) + GoroutineRank(gs[|gs| - 1])
  }

  function Rank(s: State): nat {
    Ranks(s.gs) + |s.channel| + (if s.closer then 0 else 1) + (if s.closed then 0 else 1) + (if s.collected then 0 else 1)
    + (if s.parentCancelled then 0 else 1)
  }

  lemma {:induction false} RanksUpdate(gs: seq<Goroutine>, i: nat, g: Goroutine)
    requires i < |gs|
    ensures Ranks(gs[i := g]) == Ranks(gs) - GoroutineRank(gs[i]) + GoroutineRank(g)
  {
    var last := |gs| - 1;
    if i < last {
      RanksUpdate(gs[..last], i, g);
      assert gs[i := g][..last] == gs[..last][i := g];
    } else {
      assert gs[i := g][..last] == gs[..last];
    }
  }

  lemma StepLowersRank(failFast: bool, s: State, a: Action)
    requires Inv(s) && Enabled(failFast, s, a)
    ensures Rank(Step(failFast, s, a)) < Rank(s)
  {
    hide Messages;
    match a {
      case Start => RanksUpdate(s.gs, s.started, Running);
      case Return(i, f) => RanksUpdate(s.gs, i, Returned(f));
      case Cancel(i) => RanksUpdate(s.gs, i, Ready(s.gs[i].f));
      case Send(i) => RanksUpdate(s.gs, i, Sent);
      case Done(i) => RanksUpdate(s.gs, i, Exited);
      case _ =>
    }
  }

  lemma {:induction false} InitialRank(n: nat)
    ensures Rank(Initial(n)) == 6 * n + 4
  {
    var gs := seq(n, _ => NotStarted);
    if n > 0 {
      InitialRank(n - 1);
      assert gs[..n - 1] == seq(n - 1, _ => NotStarted);
    }
  }

  lemma {:induction false} RunLength(failFast: bool, s: State, run: seq<Action>)
    requires Inv(s) && ValidRun(failFast, s, run)
    ensures |run| + Rank(After(failFast, s, run)) <= Rank(s)
    decreases |run|
  {
    hide Rank;
    hide Messages;
    if run != [] {
      StepKeepsInv(failFast, s, run[0]);
      StepLowersRank(failFast, s, run[0]);
      RunLength(failFast, Step(failFast, s, run[0]), run[1..]);
    }
  }

  /** No interleaving goes on for more than 6n + 4 steps. */
  lemma EveryRunIsShort(failFast: bool, n: nat, run: seq<Action>)
    requires Interleaving(failFast, n, run)
    ensures |run| <= 6 * n + 4
  {
    InitialInv(n);
    RunLength(failFast, Initial(n), run);
    InitialRank(n);
  }

  /** The channel never holds more than it has room for, so no send ever waits. */
  lemma RoomForOneMore(s: State, i: nat)
    requires Inv(s) && i < N(s) && !HasSent(s.gs[i])
    ensures |s.channel| < N(s)
  {
    var indices := Indices(s.channel);
    IndicesSize(s.channel);
    assert indices <= Below(N(s)) - {i};
    SubsetSize(indices, Below(N(s)) - {i});
  }

  function Below(n: nat): (r: set<nat>)
    ensures |r| == n && forall j: nat :: j in r <==> j < n
  {
    if n == 0 then {} else Below(n - 1) + {n - 1}
  }

  ghost function Indices(channel: seq<Message>): set<nat> {
    set k | 0 <= k < |channel| :: channel[k].index
  }

  lemma {:induction false} IndicesSize(channel: seq<Message>)
    requires forall k, l | 0 <= k < l < |channel| :: channel[k].index != channel[l].index
    ensures |Indices(channel)| == |channel|
  {
    if channel != [] {
      var last := |channel| - 1;
      IndicesSize(channel[..last]);
      assert Indices(channel) == Indices(channel[..last]) + {channel[last].index};
    }
  }

  lemma {:induction false} SubsetSize(a: set<nat>, b: set<nat>)
    requires a <= b
    ensures |a| <= |b|
    decreases |a|
  {
    if |a| > 0 {
      var x :| x in a;
      SubsetSize(a - {x}, b - {x});
    }
  }

  /** Until the results are collected some step other than the environment's can be taken. */
  lemma NeverStuck(failFast: bool, s: State)
    requires Inv(s) && !s.collected
    ensures exists a :: Enabled(failFast, s, a) && !a.ParentCancel?
  {
    if s.started < N(s) {
      assert Enabled(failFast, s, Start);
    } else if !s.closer {
      assert Enabled(failFast, s, StartCloser);
    } else if s.channel != [] {
      assert Enabled(failFast, s, Receive);
    } else if exists i :: 0 <= i < N(s) && Live(s.gs[i]) {
      var i :| 0 <= i < N(s) && Live(s.gs[i]);
      match s.gs[i] {
        case Running => assert Enabled(failFast, s, Return(i, Finish(Outcome(None, 0), false)));
        case Returned(_) => assert Enabled(failFast, s, Cancel(i));
        case Ready(_) =>
          RoomForOneMore(s, i);
          assert Enabled(failFast, s, Send(i));
        case Sent => assert Enabled(failFast, s, Done(i));
      }
    } else {
      LiveCountZero(s.gs);
      assert Enabled(failFast, s, if s.closed then EndOfChannel else Close);
    }
  }

  /** A goroutine about to send finds the channel open and with room; its slot is still empty. */
  lemma SendsAreSafe(s: State, i: nat)
    requires Inv(s) && i < N(s) && s.gs[i].Ready?
    ensures !s.closed && |s.channel| < N(s) && s.ordered[i].None? && !InChannel(s, i)
    ensures forall failFast :: Enabled(failFast, s, Send(i))
  {
    LiveCountZero(s.gs);
    RoomForOneMore(s, i);
  }

  /** A running check may return anything that does not come of a cancellation, and once there is one, anything. */
  lemma ChecksMayReturn(failFast: bool, s: State, i: nat, f: Finish)
    requires i < N(s) && s.gs[i].Running?
    ensures Enabled(failFast, s, Return(i, f)) <==> !f.saw || s.cancelled || s.parentCancelled
  {
  }

  /** A received result goes to a slot nothing was written to before. */
  lemma SlotsAreWrittenOnce(s: State)
    requires Inv(s) && Enabled(false, s, Receive)
    ensures s.ordered[s.channel[0].index].None?
    ensures forall i | 0 <= i < N(s) && s.ordered[i].Some? :: Step(false, s, Receive).ordered[i] == s.ordered[i]
  {
  }

  /** When collecting ends every check has a result in its slot. */
  lemma AllCollected(s: State)
    requires Inv(s) && s.collected
    ensures forall i | 0 <= i < N(s) :: s.gs[i].Exited? && s.ordered[i].Some?
  {
    LiveCountZero(s.gs);
    forall i | 0 <= i < N(s) ensures s.gs[i].Exited? && s.ordered[i].Some? {
      assert !Live(s.gs[i]) && !s.gs[i].NotStarted?;
    }
  }

  // ------------------------------------------------------------ the same results as the sequential form

  /** The checks' outcomes do not depend on scheduling: each returns the one given. */
  ghost predicate Conforms(run: seq<Action>, outcomes: seq<Outcome>) {
    forall a | a in run :: a.Return? && a.i < |outcomes| ==> a.f.outcome == outcomes[a.i]
  }

  ghost predicate Carries(s: State, outcomes: seq<Outcome>) {
    && N(s) == |s.ordered| == |outcomes|
    && (forall i | 0 <= i < N(s) :: s.gs[i].Returned? || s.gs[i].Ready? ==> s.gs[i].f.outcome == outcomes[i])
    && (forall k | 0 <= k < |s.channel| :: s.channel[k].index < |outcomes| && s.channel[k].f.outcome == outcomes[s.channel[k].index])
    && (forall i | 0 <= i < N(s) :: s.ordered[i].Some? ==> s.ordered[i].value.outcome == outcomes[i])
  }

  lemma StepCarries(failFast: bool, s: State, a: Action, outcomes: seq<Outcome>)
    requires Inv(s) && Enabled(failFast, s, a) && Carries(s, outcomes)
    requires a.Return? ==> a.f.outcome == outcomes[a.i]
    ensures Carries(Step(failFast, s, a), outcomes)
  {
    hide Messages;
    hide LiveCount;
    var t := Step(failFast, s, a);
    if a.Receive? {
      assert forall k | 0 <= k < |t.channel| :: t.channel[k] == s.channel[k + 1];
    }
  }

  lemma {:induction false} RunCarries(failFast: bool, s: State, run: seq<Action>, outcomes: seq<Outcome>)
    requires Inv(s) && ValidRun(failFast, s, run) && Conforms(run, outcomes) && Carries(s, outcomes)
    ensures Carries(After(failFast, s, run), outcomes)
    decreases |run|
  {
    hide Messages;
    if run != [] {
      assert run[0] in run && forall a | a in run[1..] :: a in run;
      StepKeepsInv(failFast, s, run[0]);
      StepCarries(failFast, s, run[0], outcomes);
      hide Carries;
      RunCarries(failFast, Step(failFast, s, run[0]), run[1..], outcomes);
    }
  }

  /** What the collecting loop leaves in its slots. */
  ghost function Collected(s: State): (r: seq<Outcome>)
    requires Inv(s) && s.collected
    ensures |r| == N(s)
  {
    AllCollected(s);
    seq(N(s), i requires 0 <= i < N(s) => s.ordered[i].value.outcome)
  }

  /**
   * Every interleaving gives what the sequential form gives without fail-fast:
   * the same outcomes in the same order, so the same results, the same onDone
   * calls and the same timing history, and an error in both or in neither.
   */
  lemma ParallelRefinesSequential(category: Category, outcomes: seq<Outcome>, run: seq<Action>, blend: Blend, history: map<string, Timing>)
    requires |outcomes| == |category.checks| && Interleaving(false, |outcomes|, run) && Conforms(run, outcomes)
    requires Reached(false, |outcomes|, run).collected
    ensures var ordered := Collected(Reached(false, |outcomes|, run));
            && ordered == outcomes
            && Results(category, ordered, |ordered|) == Results(category, outcomes, RunCount(outcomes, false))
            && Reports(Results(category, ordered, |ordered|)) == Reports(Results(category, outcomes, RunCount(outcomes, false)))
            && RecordedAll(blend, category, ordered, |ordered|, history) == RecordedAll(blend, category, outcomes, RunCount(outcomes, false), history)
            && (forall last, first | IsLastError(outcomes, RunCount(outcomes, false), last) && IsFirstError(ordered, |ordered|, first)
                :: last.Some? == first.Some?)
  {
    var s := Reached(false, |outcomes|, run);
    InitialInv(|outcomes|);
    RunCarries(false, Initial(|outcomes|), run, outcomes);
    AllCollected(s);
    assert Collected(s) == outcomes;
    AllRun(outcomes);
    forall last, first | IsLastError(outcomes, |outcomes|, last) && IsFirstError(outcomes, |outcomes|, first)
      ensures last.Some? == first.Some?
    {
      ErrorsAgree(outcomes, last, first);
    }
  }

  // ------------------------------------------------------------ who can cancel whom

  ghost predicate OwnFailure(s: State)
    requires |s.ordered| == N(s)
  {
    exists i: nat, f: Finish :: i < N(s) && Delivered(s, i, f) && Failed(f) && !f.saw
  }

  /** Cancellation comes from the caller, from a check that failed on its own, or from the return itself. */
  ghost predicate Caused(s: State)
    requires |s.ordered| == N(s)
  {
    && (s.cancelled && !s.collected ==> s.parentCancelled || OwnFailure(s))
    && (forall i: nat, f: Finish | i < N(s) && Delivered(s, i, f) && f.saw :: s.parentCancelled || OwnFailure(s))
  }

  lemma DeliveredStays(failFast: bool, s: State, a: Action, i: nat, f: Finish)
    requires Inv(s) && Enabled(failFast, s, a) && i < N(s) && Delivered(s, i, f)
    ensures Delivered(Step(failFast, s, a), i, f)
  {
  }

  /** A step delivers no finish but the one a check returns. */
  lemma DeliveredBefore(failFast: bool, s: State, a: Action, i: nat, f: Finish)
    requires Inv(s) && Enabled(failFast, s, a) && i < N(s) && Delivered(Step(failFast, s, a), i, f)
    ensures Delivered(s, i, f) || a == Return(i, f)
  {
  }

  lemma StepKeepsCaused(failFast: bool, s: State, a: Action)
    requires Inv(s) && Enabled(failFast, s, a) && Caused(s)
    ensures Inv(Step(failFast, s, a)) && Caused(Step(failFast, s, a))
  {
    var t := Step(failFast, s, a);
    StepKeepsInv(failFast, s, a);
    if s.collected {
      AllCollected(s);
    }
    OwnFailureStays(failFast, s, a);
    hide Inv;
    hide Messages;
    forall i: nat, f: Finish | i < N(t) && Delivered(t, i, f) && f.saw ensures t.parentCancelled || OwnFailure(t) {
      DeliveredBefore(failFast, s, a, i, f);
    }
    if a.Cancel? {
      assert Delivered(s, a.i, s.gs[a.i].f);
    }
  }

  lemma OwnFailureStays(failFast: bool, s: State, a: Action)
    requires Inv(s) && Enabled(failFast, s, a)
    ensures OwnFailure(s) ==> OwnFailure(Step(failFast, s, a))
    ensures a.Cancel? && Failed(s.gs[a.i].f) && !s.gs[a.i].f.saw ==> OwnFailure(Step(failFast, s, a))
  {
    hide Messages;
    hide LiveCount;
    if OwnFailure(s) {
      var i: nat, f :| i < N(s) && Delivered(s, i, f) && Failed(f) && !f.saw;
      DeliveredStays(failFast, s, a, i, f);
      assert Delivered(Step(failFast, s, a), i, f);
    }
    if a.Cancel? {
      assert Delivered(Step(failFast, s, a), a.i, s.gs[a.i].f);
    }
  }

  lemma {:induction false} RunKeepsCaused(failFast: bool, s: State, run: seq<Action>)
    requires Inv(s) && ValidRun(failFast, s, run) && Caused(s)
    ensures Caused(After(failFast, s, run))
    decreases |run|
  {
    hide Messages;
    hide Caused;
    if run != [] {
      StepKeepsInv(failFast, s, run[0]);
      StepKeepsCaused(failFast, s, run[0]);
      RunKeepsCaused(failFast, Step(failFast, s, run[0]), run[1..]);
    }
  }

  /**
   * While the caller has not cancelled, a check that saw cancellation in any
   * run implies another that failed on its own, whose finish the run delivers.
   */
  lemma CancellationHasACause(failFast: bool, n: nat, run: seq<Action>, i: nat, f: Finish)
    requires Interleaving(failFast, n, run)
    requires i < n && Delivered(Reached(failFast, n, run), i, f) && f.saw
    ensures Reached(failFast, n, run).parentCancelled || OwnFailure(Reached(failFast, n, run))
  {
    InitialInv(n);
    assert Caused(Initial(n));
    RunKeepsCaused(failFast, Initial(n), run);
  }

  /** A goroutine is past its cancel step with this finish: about to send, or its message sent, or in its slot. */
  ghost predicate Past(s: State, i: nat, f: Finish)
    requires |s.ordered| == N(s)
  {
    i < N(s) && (s.gs[i] == Ready(f) || Message(i, f) in s.channel || s.ordered[i] == Some(f))
  }

  ghost predicate PastFailure(s: State)
    requires |s.ordered| == N(s)
  {
    exists i: nat, f: Finish :: Past(s, i, f) && Failed(f)
  }

  /** The runner's context is cancelled exactly once results are collected or, with fail-fast, a failed check is past its cancel step. */
  ghost predicate CancelledRightly(failFast: bool, s: State)
    requires |s.ordered| == N(s)
  {
    s.cancelled <==> s.collected || (failFast && PastFailure(s))
  }

  /** What is past its cancel step stays so. */
  lemma PastStays(failFast: bool, s: State, a: Action, i: nat, f: Finish)
    requires Inv(s) && Enabled(failFast, s, a) && Past(s, i, f)
    ensures Past(Step(failFast, s, a), i, f)
  {
    if a.Receive? {
      SlotsAreWrittenOnce(s);
    }
    hide Messages;
    hide LiveCount;
    var t := Step(failFast, s, a);
    if a.Send? {
      assert t.channel[|s.channel|] in t.channel;
      assert forall k | 0 <= k < |s.channel| :: t.channel[k] == s.channel[k] && t.channel[k] in t.channel;
    } else if a.Receive? && Message(i, f) in s.channel {
      var k :| 0 <= k < |s.channel| && s.channel[k] == Message(i, f);
      assert k > 0 ==> t.channel[k - 1] in t.channel;
    }
  }

  /** Only a goroutine's own cancel step takes it past that step. */
  lemma PastBefore(failFast: bool, s: State, a: Action, i: nat, f: Finish)
    requires Inv(s) && Enabled(failFast, s, a) && Past(Step(failFast, s, a), i, f)
    ensures Past(s, i, f) || (a == Cancel(i) && s.gs[i] == Returned(f))
  {
    hide Messages;
    hide LiveCount;
    var t := Step(failFast, s, a);
    if a.Receive? {
      assert s.channel[0] in s.channel;
      assert forall k | 0 <= k < |t.channel| :: t.channel[k] in s.channel;
    }
  }

  lemma CancelPasses(failFast: bool, s: State, i: nat)
    requires |s.ordered| == N(s) && Enabled(failFast, s, Cancel(i))
    ensures Past(Step(failFast, s, Cancel(i)), i, s.gs[i].f)
  {
  }

  lemma StepCancelsRightly(failFast: bool, s: State, a: Action)
    requires Inv(s) && Enabled(failFast, s, a) && CancelledRightly(failFast, s)
    ensures Inv(Step(failFast, s, a)) && CancelledRightly(failFast, Step(failFast, s, a))
    ensures s.cancelled ==> Step(failFast, s, a).cancelled
  {
    var t := Step(failFast, s, a);
    StepKeepsInv(failFast, s, a);
    if PastFailure(s) {
      var i: nat, f: Finish :| Past(s, i, f) && Failed(f);
      PastStays(failFast, s, a, i, f);
      assert Past(t, i, f);
    }
    if PastFailure(t) {
      var i: nat, f: Finish :| Past(t, i, f) && Failed(f);
      PastBefore(failFast, s, a, i, f);
      if !Past(s, i, f) {
        assert a == Cancel(i) && s.gs[i].f == f;
      }
    }
    if a.Cancel? {
      CancelPasses(failFast, s, a.i);
    }
    hide Inv;
    hide Past;
  }

  lemma {:induction false} RunCancelsRightly(failFast: bool, s: State, run: seq<Action>)
    requires Inv(s) && ValidRun(failFast, s, run) && CancelledRightly(failFast, s)
    ensures CancelledRightly(failFast, After(failFast, s, run))
    decreases |run|
  {
    hide Messages;
    hide CancelledRightly;
    if run != [] {
      StepKeepsInv(failFast, s, run[0]);
      StepCancelsRightly(failFast, s, run[0]);
      RunCancelsRightly(failFast, Step(failFast, s, run[0]), run[1..]);
    }
  }

  /**
   * In every state any interleaving reaches, the runner's context is cancelled
   * if and only if the results are collected or, with fail-fast, some check
   * that failed is past its cancel step; and no step undoes a cancellation.
   */
  lemma CancelledExactlyWhen(failFast: bool, n: nat, run: seq<Action>)
    requires Interleaving(failFast, n, run)
    ensures CancelledRightly(failFast, Reached(failFast, n, run))
    ensures forall a | Enabled(failFast, Reached(failFast, n, run), a) && Reached(failFast, n, run).cancelled ::
              Step(failFast, Reached(failFast, n, run), a).cancelled
  {
    InitialInv(n);
    assert !PastFailure(Initial(n));
    RunCancelsRightly(failFast, Initial(n), run);
    var s := Reached(failFast, n, run);
    forall a | Enabled(failFast, s, a) && s.cancelled ensures Step(failFast, s, a).cancelled {
      StepCancelsRightly(failFast, s, a);
    }
  }

  /** Without fail-fast nothing is cancelled before every result is collected, so no check sees the runner's cancellation. */
  lemma {:induction false} NoCancelWithoutFailFast(s: State, run: seq<Action>)
    requires Inv(s) && ValidRun(false, s, run) && (s.cancelled ==> s.collected)
    ensures After(false, s, run).cancelled ==> After(false, s, run).collected
    ensures forall a | a in run && a.Return? && a.f.saw :: s.parentCancelled || ParentCancel in run
    decreases |run|
  {
    hide Messages;
    if run != [] {
      var a := run[0];
      StepKeepsInv(false, s, a);
      StepWithoutFailFast(s, a);
      NoCancelWithoutFailFast(Step(false, s, a), run[1..]);
      hide Step;
      hide Inv;
      forall b | b in run && b.Return? && b.f.saw ensures s.parentCancelled || ParentCancel in run {
        assert b == a || b in run[1..];
      }
    }
  }

  lemma StepWithoutFailFast(s: State, a: Action)
    requires Inv(s) && Enabled(false, s, a) && (s.cancelled ==> s.collected)
    ensures Step(false, s, a).cancelled ==> Step(false, s, a).collected
    ensures a.Return? && a.f.saw ==> s.parentCancelled
    ensures Step(false, s, a).parentCancelled ==> s.parentCancelled || a == ParentCancel
  {
    if s.collected {
      AllCollected(s);
    }
  }
}
