/**
 * The attempt loop shared by the backtracking transforms, its specification,
 * and the three transforms that do not touch signatures: plain re-run
 * (`assert_transform`), global temperature bump (`assert_update_transform`)
 * and temperature bump on the blamed predictor only (`assert_latest_transform`).
 */
module Retry {
  import opened Wrappers
  import opened Traces
  import opened Assertions
  import opened Predictors

  /** What one call of the wrapped function does: return a value or raise. */
  datatype Attempt<R> = Returned(value: R) | Threw(exc: Exception, trace: Trace)

  /**
   * The wrapped function: given the predictors' state and the attempt number,
   * what that call does. The attempt number stands for everything else the
   * call depends on (language-model sampling, caches).
   */
  type Pipeline<R> = (Arena, nat) -> Attempt<R>

  /** A call the loop catches: one that raised `DSPyAssertionError`. */
  predicate Caught<R>(a: Attempt<R>)
  {
    a.Threw? && a.exc.AssertionFailed?
  }

  /** `dsp.settings.trace` as the handler reads it after a failed call. */
  function FailureTrace<R>(a: Attempt<R>): Trace
  {
    if a.Threw? then a.trace else []
  }

  /** `e.msg` of a caught failure. */
  function FailureMsg<R>(a: Attempt<R>): Value
  {
    if Caught(a) then a.exc.error.msg else NoneValue
  }

  /**
   * What the wrapped call gives its caller: the first successful result, the
   * implicit `None` of an exhausted loop, or an exception that escaped.
   */
  datatype Outcome<R> = Done(value: R) | Exhausted | Raised(exc: Exception)

  /**
   * One run of a transformed function: its outcome, the state each call
   * observed (in call order), `backtrack_to` as it stood before each call,
   * and the state left behind.
   */
  datatype Run<S, R> = Run(outcome: Outcome<R>, seen: seq<S>, targets: seq<Option<StageId>>, final: S)

  /** The default `max_backtracks` of every transform decorator. */
  const DefaultMaxBacktracks: int := 2

  /** `range(max_backtracks + 1)` has this many elements. */
  function Limit(maxBacktracks: int): nat
  {
    if maxBacktracks + 1 > 0 then maxBacktracks + 1 else 0
  }

  /** How the last call of a run settles the outcome. */
  ghost predicate Settles<R>(last: Attempt<R>, outcome: Outcome<R>, atLimit: bool)
  {
    match last
    case Returned(v) => outcome == Done(v)
    case Threw(e, _) =>
      if e.AssertionFailed? then outcome == Exhausted && atLimit else outcome == Raised(e)
  }

  /**
   * The attempt-loop contract, from attempt `start` on: at most `limit`
   * attempts in all; every call but the last raised `DSPyAssertionError`;
   * the last call's value is returned, or its other exception propagates, or
   * it failed too and that was the last attempt allowed, giving no result.
   */
  ghost predicate AttemptLoop<S, R>(func: (S, nat) -> Attempt<R>, start: nat, limit: nat,
                                    seen: seq<S>, outcome: Outcome<R>)
  {
    && start + |seen| <= limit
    && (forall j | 0 <= j < |seen| - 1 :: Caught(func(seen[j], start + j)))
    && (|seen| == 0 ==> start == limit && outcome == Exhausted)
    && (|seen| > 0 ==>
          Settles(func(seen[|seen| - 1], start + |seen| - 1), outcome, start + |seen| == limit))
  }

  /**
   * The blame rule over a run: before each call after the first,
   * `backtrack_to` is the blame of the previous call's trace.
   */
  ghost predicate BlameLog<S, R>(func: (S, nat) -> Attempt<R>, start: nat,
                                 seen: seq<S>, targets: seq<Option<StageId>>)
  {
    && |targets| == |seen|
    && forall j | 0 <= j < |seen| - 1 ::
         targets[j + 1] == Blame(FailureTrace(func(seen[j], start + j)), targets[j])
  }

  /** A run whose only call settles the outcome keeps the attempt-loop contract. */
  lemma AttemptLoopOne<S, R>(func: (S, nat) -> Attempt<R>, start: nat, limit: nat,
                             s: S, outcome: Outcome<R>)
    requires start < limit
    requires Settles(func(s, start), outcome, start + 1 == limit)
    ensures AttemptLoop(func, start, limit, [s], outcome)
  {
    assert [s][0] == s;
  }

  /** A caught failure followed by a run from the next attempt keeps the contract. */
  lemma AttemptLoopCons<S, R>(func: (S, nat) -> Attempt<R>, start: nat, limit: nat,
                              s: S, seen: seq<S>, outcome: Outcome<R>)
    requires Caught(func(s, start))
    requires AttemptLoop(func, start + 1, limit, seen, outcome)
    ensures AttemptLoop(func, start, limit, [s] + seen, outcome)
  {
    var all := [s] + seen;
    assert forall j | 0 < j < |all| :: all[j] == seen[j - 1];
    if |seen| == 0 {
      assert all == [s];
    } else {
      assert all[|all| - 1] == seen[|seen| - 1];
    }
    forall j | 0 <= j < |all| - 1
      ensures Caught(func(all[j], start + j))
    {
      if j > 0 {
        assert Caught(func(seen[j - 1], start + 1 + (j - 1)));
      }
    }
  }

  /** Prepending a call to a run whose first target is that call's blame keeps the blame rule. */
  lemma BlameLogCons<S, R>(func: (S, nat) -> Attempt<R>, start: nat,
                           s: S, t: Option<StageId>, seen: seq<S>, targets: seq<Option<StageId>>)
    requires BlameLog(func, start + 1, seen, targets)
    requires |seen| > 0 ==> targets[0] == Blame(FailureTrace(func(s, start)), t)
    ensures BlameLog(func, start, [s] + seen, [t] + targets)
  {
    var all, ts := [s] + seen, [t] + targets;
    forall j | 0 <= j < |all| - 1
      ensures ts[j + 1] == Blame(FailureTrace(func(all[j], start + j)), ts[j])
    {
      if j > 0 {
        assert all[j] == seen[j - 1] && ts[j] == targets[j - 1] && ts[j + 1] == targets[j];
        assert targets[(j - 1) + 1] == Blame(FailureTrace(func(seen[j - 1], start + 1 + (j - 1))), targets[j - 1]);
      }
    }
  }

  lemma LastOfCons<S>(s: S, seen: seq<S>)
    ensures |seen| > 0 ==> ([s] + seen)[|seen|] == seen[|seen| - 1]
  {
  }

  /** How many times a run rewound to predictor `h`. */
  function Rewinds(targets: seq<Option<StageId>>, h: StageId): nat
    decreases |targets|
  {
    if targets == [] then 0
    else (if targets[0] == Some(h) then 1 else 0) + Rewinds(targets[1..], h)
  }

  // ---------------------------------------------------------------- assert_transform

  function BlindLoop<R>(func: Pipeline<R>, arena: Arena, limit: nat, i: nat): (r: Run<Arena, R>)
    requires i <= limit
    ensures AttemptLoop(func, i, limit, r.seen, r.outcome)
    ensures |r.targets| == |r.seen|
    ensures forall j | 0 <= j < |r.seen| :: r.seen[j] == arena && r.targets[j] == None
    ensures r.final == arena
    decreases limit - i
  {
    if i == limit then Run(Exhausted, [], [], arena)
    else
      match func(arena, i)
      case Returned(v) =>
        AttemptLoopOne(func, i, limit, arena, Done(v));
        Run(Done(v), [arena], [None], arena)
      case Threw(e, _) =>
        if e.AssertionFailed? then
          var rest := BlindLoop(func, arena, limit, i + 1);
          AttemptLoopCons(func, i, limit, arena, rest.seen, rest.outcome);
          Run(rest.outcome, [arena] + rest.seen, [None] + rest.targets, arena)
        else
          AttemptLoopOne(func, i, limit, arena, Raised(e));
          Run(Raised(e), [arena], [None], arena)
  }

  /**
   * `assert_transform(max_backtracks)(func)`: re-runs `func` unchanged after
   * each `DSPyAssertionError`; no predictor is touched and nothing is blamed.
   */
  function AssertTransform<R>(maxBacktracks: int, func: Pipeline<R>, arena: Arena): (r: Run<Arena, R>)
    ensures AttemptLoop(func, 0, Limit(maxBacktracks), r.seen, r.outcome)
    ensures |r.targets| == |r.seen|
    ensures forall j | 0 <= j < |r.seen| :: r.seen[j] == arena && r.targets[j] == None
    ensures r.final == arena
  {
    BlindLoop(func, arena, Limit(maxBacktracks), 0)
  }

  // --------------------------------------------------------- assert_update_transform

  /** A run of `func` under a language-model temperature override (`None`: the configured model). */
  type TemperaturePipeline<R> = (Option<real>, nat) -> Attempt<R>

  /** `0.71 + 0.002 * i`, taken exactly. */
  function UpdateTemperature(i: nat): real
  {
    71.0 / 100.0 + 2.0 / 1000.0 * (i as real)
  }

  /** The override each call ran under follows the blame in force before it. */
  ghost predicate OverrideLog(start: nat, seen: seq<Option<real>>, targets: seq<Option<StageId>>)
  {
    && |targets| == |seen|
    && forall j | 0 <= j < |seen| ::
         seen[j] == (if targets[j].Some? then Some(UpdateTemperature(start + j)) else None)
  }

  lemma OverrideLogCons(start: nat, s: Option<real>, t: Option<StageId>,
                        seen: seq<Option<real>>, targets: seq<Option<StageId>>)
    requires s == (if t.Some? then Some(UpdateTemperature(start)) else None)
    requires OverrideLog(start + 1, seen, targets)
    ensures OverrideLog(start, [s] + seen, [t] + targets)
  {
    var all, ts := [s] + seen, [t] + targets;
    forall j | 0 <= j < |all|
      ensures all[j] == (if ts[j].Some? then Some(UpdateTemperature(start + j)) else None)
    {
      if j > 0 {
        assert all[j] == seen[j - 1] && ts[j] == targets[j - 1];
        assert start + j == (start + 1) + (j - 1);
      }
    }
  }

  /**
   * The loop of `assert_update_transform`. In the code as written,
   * `backtrack_to` is a local that is only assigned in the handler, so
   * reading it at attempt `i > 0` before any assignment raises
   * `UnboundLocalError`; `initialised` selects the corrected code that
   * starts it at `None`. Here `None` stands for both "unassigned" and `None`.
   */
  function UpdateLoop<R>(func: TemperaturePipeline<R>, backtrack: Option<StageId>,
                         limit: nat, i: nat, initialised: bool): (r: Run<Option<real>, R>)
    requires i <= limit
    requires i == 0 ==> backtrack == None
    ensures initialised || backtrack.Some? ==> AttemptLoop(func, i, limit, r.seen, r.outcome)
    ensures BlameLog(func, i, r.seen, r.targets)
    ensures OverrideLog(i, r.seen, r.targets)
    ensures |r.seen| > 0 ==> r.targets[0] == backtrack
    ensures backtrack.Some? ==> forall j | 0 <= j < |r.targets| :: r.targets[j].Some?
    ensures r.final == None
    decreases limit - i
  {
    if i == limit then Run(Exhausted, [], [], None)
    else if i > 0 && backtrack.None? && !initialised then
      Run(Raised(UnboundLocalError("backtrack_to")), [], [], None)
    else
      var override := if i > 0 && backtrack.Some? then Some(UpdateTemperature(i)) else None;
      match func(override, i)
      case Returned(v) =>
        AttemptLoopOne(func, i, limit, override, Done(v));
        Run(Done(v), [override], [backtrack], None)
      case Threw(e, t) =>
        if e.AssertionFailed? then
          var rest := UpdateLoop(func, Blame(t, backtrack), limit, i + 1, initialised);
          if initialised || backtrack.Some? then
            AttemptLoopCons(func, i, limit, override, rest.seen, rest.outcome);
            BlameLogCons(func, i, override, backtrack, rest.seen, rest.targets);
            OverrideLogCons(i, override, backtrack, rest.seen, rest.targets);
            Run(rest.outcome, [override] + rest.seen, [backtrack] + rest.targets, None)
          else
            BlameLogCons(func, i, override, backtrack, rest.seen, rest.targets);
            OverrideLogCons(i, override, backtrack, rest.seen, rest.targets);
            Run(rest.outcome, [override] + rest.seen, [backtrack] + rest.targets, None)
        else
          AttemptLoopOne(func, i, limit, override, Raised(e));
          Run(Raised(e), [override], [backtrack], None)
  }

  /** The first failure of an update-transformed call left `backtrack_to` unassigned. */
  ghost predicate UnboundAfterFirstFailure<R>(func: TemperaturePipeline<R>, limit: nat)
  {
    limit >= 2 && Caught(func(None, 0)) && FailureTrace(func(None, 0)) == []
  }

  /**
   * `assert_update_transform(max_backtracks)(func)` as written: after a
   * failure blamed on some predictor, every later attempt runs the whole
   * pipeline at temperature `0.71 + 0.002 * i`; but a first failure with an
   * empty trace makes the second attempt raise `UnboundLocalError`.
   */
  function UpdateTransform<R>(maxBacktracks: int, func: TemperaturePipeline<R>): (r: Run<Option<real>, R>)
    ensures UnboundAfterFirstFailure(func, Limit(maxBacktracks)) ==>
              r.outcome == Raised(UnboundLocalError("backtrack_to")) && |r.seen| == 1
    ensures !UnboundAfterFirstFailure(func, Limit(maxBacktracks)) ==>
              AttemptLoop(func, 0, Limit(maxBacktracks), r.seen, r.outcome)
    ensures |r.seen| > 0 ==> r.seen[0] == None
    ensures forall j | 0 < j < |r.seen| :: r.seen[j] == Some(UpdateTemperature(j))
  {
    var limit := Limit(maxBacktracks);
    var r := UpdateLoop(func, None, limit, 0, false);
    if limit == 0 then r
    else
      match func(None, 0)
      case Returned(v) => r
      case Threw(e, t) =>
        if !e.AssertionFailed? then r
        else
          var rest := UpdateLoop(func, Blame(t, None), limit, 1, false);
          assert r.seen == [None] + rest.seen && r.targets == [None] + rest.targets;
          if |t| > 0 then
            AttemptLoopCons(func, 0, limit, None, rest.seen, rest.outcome);
            assert forall j | 0 < j < |r.seen| :: r.targets[j] == rest.targets[j - 1];
            r
          else if limit == 1 then
            assert r.seen == [None];
            AttemptLoopOne(func, 0, limit, None, Exhausted);
            r
          else r
  }

  /**
   * The corrected `assert_update_transform`, with `backtrack_to = None`
   * before the loop: it keeps the attempt-loop contract on every input, so
   * exhausting its attempts never raises.
   */
  function CorrectedUpdateTransform<R>(maxBacktracks: int, func: TemperaturePipeline<R>)
    : (r: Run<Option<real>, R>)
    ensures AttemptLoop(func, 0, Limit(maxBacktracks), r.seen, r.outcome)
    ensures BlameLog(func, 0, r.seen, r.targets)
    ensures OverrideLog(0, r.seen, r.targets)
    ensures |r.seen| > 0 ==> r.targets[0] == None
  {
    UpdateLoop(func, None, Limit(maxBacktracks), 0, true)
  }

  // --------------------------------------------------------- assert_latest_transform

  /** `0.7 + 0.001 * i`, taken exactly. */
  function LatestTemperature(i: nat): real
  {
    7.0 / 10.0 + 1.0 / 1000.0 * (i as real)
  }

  /**
   * The state call `j` of a latest-transformed run should see: the state
   * before it with the temperature of the then-blamed predictor set for
   * that attempt.
   */
  ghost function Retuned(start: nat, before: Arena, seen: seq<Arena>, targets: seq<Option<StageId>>,
                         j: nat): Arena
    requires j < |seen| && j < |targets|
  {
    SetTemperature(if j == 0 then before else seen[j - 1], targets[j], LatestTemperature(start + j))
  }

  /** Every call of the run saw the state `Retuned` describes. */
  ghost predicate TemperatureLog(start: nat, before: Arena, seen: seq<Arena>, targets: seq<Option<StageId>>)
  {
    && |targets| == |seen|
    && forall j {:trigger Retuned(start, before, seen, targets, j)} | 0 <= j < |seen| ::
         seen[j] == Retuned(start, before, seen, targets, j)
  }

  lemma TemperatureLogAt(start: nat, before: Arena, seen: seq<Arena>, targets: seq<Option<StageId>>, j: nat)
    requires TemperatureLog(start, before, seen, targets) && j < |seen|
    ensures seen[j] == SetTemperature(if j == 0 then before else seen[j - 1],
                                      targets[j], LatestTemperature(start + j))
  {
    assert seen[j] == Retuned(start, before, seen, targets, j);
  }

  lemma TemperatureLogConsAt(start: nat, before: Arena, s: Arena, t: Option<StageId>,
                             seen: seq<Arena>, targets: seq<Option<StageId>>, j: nat)
    requires s == SetTemperature(before, t, LatestTemperature(start))
    requires TemperatureLog(start + 1, s, seen, targets)
    requires j < |seen| + 1
    ensures ([s] + seen)[j] == Retuned(start, before, [s] + seen, [t] + targets, j)
  {
    var all, ts := [s] + seen, [t] + targets;
    if j > 0 {
      var k := j - 1;
      assert all[j] == seen[k] && ts[j] == targets[k];
      TemperatureLogAt(start + 1, s, seen, targets, k);
      assert all[j - 1] == if k == 0 then s else seen[k - 1];
    } else {
      assert all[0] == s && ts[0] == t;
    }
  }

  lemma TemperatureLogCons(start: nat, before: Arena, s: Arena, t: Option<StageId>,
                           seen: seq<Arena>, targets: seq<Option<StageId>>)
    requires s == SetTemperature(before, t, LatestTemperature(start))
    requires TemperatureLog(start + 1, s, seen, targets)
    ensures TemperatureLog(start, before, [s] + seen, [t] + targets)
  {
    forall j | 0 <= j < |seen| + 1
      ensures ([s] + seen)[j] == Retuned(start, before, [s] + seen, [t] + targets, j)
    {
      TemperatureLogConsAt(start, before, s, t, seen, targets, j);
    }
  }

  /** The predictors attempt `i` runs on: the blamed one retuned, from the second attempt on. */
  function Perturb(arena: Arena, backtrack: Option<StageId>, i: nat): (r: Arena)
    requires i == 0 ==> backtrack == None
    ensures r == SetTemperature(arena, backtrack, LatestTemperature(i))
  {
    if i > 0 then SetTemperature(arena, backtrack, LatestTemperature(i)) else arena
  }

  /** The loop of `assert_latest_transform`; `LatestLoopLogs` states what a run is. */
  function LatestLoop<R>(func: Pipeline<R>, arena: Arena, backtrack: Option<StageId>,
                         limit: nat, i: nat): (r: Run<Arena, R>)
    requires i <= limit
    requires i == 0 ==> backtrack == None
    ensures |r.targets| == |r.seen|
    decreases limit - i
  {
    if i == limit then Run(Exhausted, [], [], arena)
    else
      var current := Perturb(arena, backtrack, i);
      var a := func(current, i);
      if Caught(a) then
        var rest := LatestLoop(func, current, Blame(a.trace, backtrack), limit, i + 1);
        Run(rest.outcome, [current] + rest.seen, [backtrack] + rest.targets, rest.final)
      else if a.Returned? then Run(Done(a.value), [current], [backtrack], current)
      else Run(Raised(a.exc), [current], [backtrack], current)
  }

  /** A caught call: the run is that call followed by the run from the retuned state. */
  lemma LatestCaughtShape<R>(func: Pipeline<R>, arena: Arena, backtrack: Option<StageId>, limit: nat, i: nat)
    requires i < limit && (i == 0 ==> backtrack == None)
    requires Caught(func(Perturb(arena, backtrack, i), i))
    ensures var current := Perturb(arena, backtrack, i);
            var r := LatestLoop(func, arena, backtrack, limit, i);
            var rest := LatestLoop(func, current, Blame(func(current, i).trace, backtrack), limit, i + 1);
            r == Run(rest.outcome, [current] + rest.seen, [backtrack] + rest.targets, rest.final)
  {
  }

  /** A call that settles the loop: the run is that call alone. */
  lemma LatestSettledShape<R>(func: Pipeline<R>, arena: Arena, backtrack: Option<StageId>, limit: nat, i: nat)
    requires i < limit && (i == 0 ==> backtrack == None)
    requires !Caught(func(Perturb(arena, backtrack, i), i))
    ensures var current := Perturb(arena, backtrack, i);
            var r := LatestLoop(func, arena, backtrack, limit, i);
            && r.seen == [current] && r.targets == [backtrack] && r.final == current
            && Settles(func(current, i), r.outcome, i + 1 == limit)
  {
  }

  /** What `LatestLoopLogs` states about a run from attempt `i`. */
  ghost predicate LatestRun<R>(func: Pipeline<R>, arena: Arena, backtrack: Option<StageId>, limit: nat, i: nat,
                               r: Run<Arena, R>)
  {
    && AttemptLoop(func, i, limit, r.seen, r.outcome)
    && BlameLog(func, i, r.seen, r.targets)
    && TemperatureLog(i, arena, r.seen, r.targets)
    && (|r.seen| > 0 ==> r.targets[0] == backtrack)
    && r.final == if |r.seen| == 0 then arena else r.seen[|r.seen| - 1]
  }

  /** A caught call prepended to a run from the retuned state. */
  lemma LatestRunCons<R>(func: Pipeline<R>, arena: Arena, backtrack: Option<StageId>, limit: nat, i: nat,
                         rest: Run<Arena, R>)
    requires i < limit && (i == 0 ==> backtrack == None)
    requires Caught(func(Perturb(arena, backtrack, i), i))
    requires var current := Perturb(arena, backtrack, i);
             LatestRun(func, current, Blame(func(current, i).trace, backtrack), limit, i + 1, rest)
    ensures var current := Perturb(arena, backtrack, i);
            LatestRun(func, arena, backtrack, limit, i,
                      Run(rest.outcome, [current] + rest.seen, [backtrack] + rest.targets, rest.final))
  {
    var current := Perturb(arena, backtrack, i);
    AttemptLoopCons(func, i, limit, current, rest.seen, rest.outcome);
    BlameLogCons(func, i, current, backtrack, rest.seen, rest.targets);
    TemperatureLogCons(i, arena, current, backtrack, rest.seen, rest.targets);
    LastOfCons(current, rest.seen);
  }

  /** A single call that settles the loop. */
  lemma LatestRunOne<R>(func: Pipeline<R>, arena: Arena, backtrack: Option<StageId>, limit: nat, i: nat,
                        r: Run<Arena, R>)
    requires i < limit && (i == 0 ==> backtrack == None)
    requires var current := Perturb(arena, backtrack, i);
             && r.seen == [current] && r.targets == [backtrack] && r.final == current
             && Settles(func(current, i), r.outcome, i + 1 == limit)
    ensures LatestRun(func, arena, backtrack, limit, i, r)
  {
    var current := Perturb(arena, backtrack, i);
    AttemptLoopOne(func, i, limit, current, r.outcome);
    BlameLogCons(func, i, current, backtrack, [], []);
    TemperatureLogCons(i, arena, current, backtrack, [], []);
    assert [current] + [] == [current] && [backtrack] + [] == [backtrack];
  }

  /**
   * A run of the loop keeps the attempt-loop contract and the blame rule;
   * each call saw the blamed predictor retuned; the state left behind is
   * the one the last call saw.
   */
  lemma {:induction false} LatestLoopLogs<R>(func: Pipeline<R>, arena: Arena, backtrack: Option<StageId>,
                                             limit: nat, i: nat)
    requires i <= limit
    requires i == 0 ==> backtrack == None
    ensures LatestRun(func, arena, backtrack, limit, i, LatestLoop(func, arena, backtrack, limit, i))
    decreases limit - i
  {
    if i < limit {
      var current := Perturb(arena, backtrack, i);
      if Caught(func(current, i)) {
        LatestCaughtShape(func, arena, backtrack, limit, i);
        LatestLoopLogs(func, current, Blame(func(current, i).trace, backtrack), limit, i + 1);
        LatestRunCons(func, arena, backtrack, limit, i,
                      LatestLoop(func, current, Blame(func(current, i).trace, backtrack), limit, i + 1));
      } else {
        LatestSettledShape(func, arena, backtrack, limit, i);
        LatestRunOne(func, arena, backtrack, limit, i, LatestLoop(func, arena, backtrack, limit, i));
      }
    }
  }

  /**
   * `assert_latest_transform(max_backtracks)(func)`: the first attempt runs
   * on the predictors as they are; before each later attempt, only the
   * predictor blamed so far gets temperature `0.7 + 0.001 * i`. Nothing is
   * reset afterwards.
   */
  function LatestTransform<R>(maxBacktracks: int, func: Pipeline<R>, arena: Arena): (r: Run<Arena, R>)
    ensures AttemptLoop(func, 0, Limit(maxBacktracks), r.seen, r.outcome)
    ensures BlameLog(func, 0, r.seen, r.targets)
    ensures TemperatureLog(0, arena, r.seen, r.targets)
    ensures |r.seen| > 0 ==> r.seen[0] == arena && r.targets[0] == None
    ensures r.final == if |r.seen| == 0 then arena else r.seen[|r.seen| - 1]
  {
    LatestLoopLogs(func, arena, None, Limit(maxBacktracks), 0);
    LatestLoop(func, arena, None, Limit(maxBacktracks), 0)
  }

  /**
   * Only temperatures move: at every attempt, and afterwards, each predictor
   * has its original signature, forward and every other config entry.
   */
  lemma {:induction false} LatestOnlyTemperatures<R>(maxBacktracks: int, func: Pipeline<R>,
                                                     arena: Arena, j: nat, h: StageId)
    requires h in arena
    requires j < |LatestTransform(maxBacktracks, func, arena).seen|
    ensures var r := LatestTransform(maxBacktracks, func, arena);
            h in r.seen[j] && SameButTemperature(r.seen[j][h], arena[h])
    decreases j
  {
    var r := LatestTransform(maxBacktracks, func, arena);
    if j > 0 {
      LatestOnlyTemperatures(maxBacktracks, func, arena, j - 1, h);
      TemperatureLogAt(0, arena, r.seen, r.targets, j);
      SetTemperatureOnlyTemperature(r.seen[j - 1], r.targets[j], LatestTemperature(j), h);
    }
  }

  /**
   * A predictor not blamed before any of the first `j + 1` attempts is
   * exactly as it was when attempt `j` runs.
   */
  lemma {:induction false} LatestUnblamedUnchanged<R>(maxBacktracks: int, func: Pipeline<R>,
                                                      arena: Arena, j: nat, h: StageId)
    requires h in arena
    requires j < |LatestTransform(maxBacktracks, func, arena).seen|
    requires forall p | 0 <= p <= j :: LatestTransform(maxBacktracks, func, arena).targets[p] != Some(h)
    ensures h in LatestTransform(maxBacktracks, func, arena).seen[j]
    ensures LatestTransform(maxBacktracks, func, arena).seen[j][h] == arena[h]
    decreases j
  {
    var r := LatestTransform(maxBacktracks, func, arena);
    TemperatureLogAt(0, arena, r.seen, r.targets, j);
    if j > 0 {
      LatestUnblamedUnchanged(maxBacktracks, func, arena, j - 1, h);
    }
  }

  /**
   * An escaping exception ends the loop at once: if the first call raises
   * anything but `DSPyAssertionError`, it is the only call and the exception
   * propagates.
   */
  lemma OtherExceptionStops<S, R>(func: (S, nat) -> Attempt<R>, limit: nat,
                                  seen: seq<S>, outcome: Outcome<R>)
    requires AttemptLoop(func, 0, limit, seen, outcome)
    requires |seen| > 0 && func(seen[0], 0).Threw? && !Caught(func(seen[0], 0))
    ensures |seen| == 1 && outcome == Raised(func(seen[0], 0).exc)
  {
  }

  /**
   * Exhaustion: a run gives no result exactly when every one of its
   * `limit` attempts raised `DSPyAssertionError`.
   */
  lemma ExhaustedIffAllCaught<S, R>(func: (S, nat) -> Attempt<R>, limit: nat,
                                    seen: seq<S>, outcome: Outcome<R>)
    requires AttemptLoop(func, 0, limit, seen, outcome)
    ensures outcome == Exhausted <==>
              |seen| == limit && forall j | 0 <= j < |seen| :: Caught(func(seen[j], j))
  {
  }
}
