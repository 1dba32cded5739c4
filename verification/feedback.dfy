/**
 * `assert_latest_feedback_transform`: before each retry, the blamed
 * predictor gets a `feedback` input field whose default is the last
 * assertion message; after the loop every recorded predictor is rolled back.
 */
module Feedback {
  import opened Wrappers
  import opened Traces
  import opened Signatures
  import opened Predictors
  import opened Retry

  const FeedbackKey: string := "feedback"

  /** `dspy.InputField(prefix="Instruction:", desc="Some instructions you must satisfy")`. */
  const FeedbackField: Descriptor :=
    Descriptor(InputField, "Instruction:", "Some instructions you must satisfy")

  /** `_extend_predictor_signature(predictor, feedback=feedback)`. */
  function ExtendWithFeedback(sig: Signature): Signature
  {
    Extend(sig, [(FeedbackKey, FeedbackField)])
  }

  /** `_revert_predictor_signature(predictor, "feedback")`. */
  function RevertFeedback(sig: Signature): Signature
  {
    Revert(sig, [FeedbackKey])
  }

  /** The signature left by `n` rewinds and one revert. */
  function SignatureAfter(sig: Signature, n: nat): Signature
    decreases n
  {
    if n <= 1 then RevertFeedback(ExtendWithFeedbackN(sig, n))
    else SignatureAfter(ExtendWithFeedback(sig), n - 1)
  }

  /** `ExtendWithFeedback` applied `n` times. */
  function ExtendWithFeedbackN(sig: Signature, n: nat): Signature
    decreases n
  {
    if n == 0 then sig else ExtendWithFeedbackN(ExtendWithFeedback(sig), n - 1)
  }

  /** `_wrap_forward_with_set_fields(predictor, default_args={"feedback": msg})`. */
  function FeedbackWrapper(f: Forward, msg: Value): Forward
  {
    WrapForward(f, [(FeedbackKey, msg)])
  }

  /** One rewind of a predictor: signature extended, forward wrapped. */
  function RewindPredictor(p: Predictor, msg: Value): Predictor
  {
    p.(signature := ExtendWithFeedback(p.signature), forward := FeedbackWrapper(p.forward, msg))
  }

  /** The rewind before an attempt, applied to the blamed predictor only. */
  function RewindArena(arena: Arena, target: Option<StageId>, msg: Value): (r: Arena)
    ensures r.Keys == arena.Keys
  {
    match target
    case Some(h) => if h in arena then arena[h := RewindPredictor(arena[h], msg)] else arena
    case None => arena
  }

  /** The rewind touches the blamed predictor only, and rewinds it. */
  lemma RewindArenaAt(arena: Arena, target: Option<StageId>, msg: Value, h: StageId)
    requires h in arena
    ensures RewindArena(arena, target, msg)[h]
            == if target == Some(h) then RewindPredictor(arena[h], msg) else arena[h]
  {
  }

  /**
   * `extended_predictors_to_original_forward[backtrack_to] = backtrack_to.forward`.
   * As written the entry is overwritten on every rewind; `keepFirst` keeps
   * the first entry, as the corrected code does.
   */
  function Record(records: map<StageId, Forward>, arena: Arena, target: Option<StageId>,
                  keepFirst: bool): (r: map<StageId, Forward>)
    ensures r.Keys == records.Keys + (if target.Some? && target.value in arena then {target.value} else {})
  {
    match target
    case Some(h) =>
      if h in arena then (if keepFirst && h in records then records else records[h := arena[h].forward])
      else records
    case None => records
  }

  /**
   * Recording touches the blamed predictor's entry only: as written it
   * always stores the current forward; with `keepFirst` an existing entry stays.
   */
  lemma RecordAt(records: map<StageId, Forward>, arena: Arena, target: Option<StageId>,
                 keepFirst: bool, h: StageId)
    requires h in arena
    ensures var r := Record(records, arena, target, keepFirst);
            && (target != Some(h) ==> (h in r <==> h in records) && (h in r ==> r[h] == records[h]))
            && (target == Some(h) ==>
                  h in r && r[h] == (if keepFirst && h in records then records[h] else arena[h].forward))
  {
  }

  /** Undoing one predictor: `feedback` removed from its signature, its forward reset. */
  function RestorePredictor(p: Predictor, original: Forward): Predictor
  {
    p.(signature := RevertFeedback(p.signature), forward := original)
  }

  /** The rollback loop after the attempts: every recorded predictor is restored. */
  function RollbackAll(arena: Arena, records: map<StageId, Forward>): (r: Arena)
    ensures r.Keys == arena.Keys
  {
    map h | h in arena :: if h in records then RestorePredictor(arena[h], records[h]) else arena[h]
  }

  /** Rollback restores exactly the recorded predictors. */
  lemma RollbackAllAt(arena: Arena, records: map<StageId, Forward>, h: StageId)
    requires h in arena
    ensures RollbackAll(arena, records)[h]
            == if h in records then RestorePredictor(arena[h], records[h]) else arena[h]
  {
  }

  /** The loop variables of the transform. */
  datatype FeedbackState = FeedbackState(arena: Arena, backtrack: Option<StageId>,
                                         errorMsg: Value, records: map<StageId, Forward>)

  /** The rewind step before attempt `i`. */
  function RewindStep(st: FeedbackState, i: nat, keepFirst: bool): (r: FeedbackState)
    requires i == 0 ==> st.backtrack == None
    ensures r.arena == RewindArena(st.arena, st.backtrack, st.errorMsg)
    ensures r.records == Record(st.records, st.arena, st.backtrack, keepFirst)
    ensures r.backtrack == st.backtrack && r.errorMsg == st.errorMsg
  {
    if i > 0 && st.backtrack.Some? then
      st.(records := Record(st.records, st.arena, st.backtrack, keepFirst),
          arena := RewindArena(st.arena, st.backtrack, st.errorMsg))
    else st
  }

  /**
   * The state call `j` of a feedback-transformed run should see: the state
   * before it with the then-blamed predictor rewound, its feedback default
   * being the message of the previous failure.
   */
  ghost function Rewound<R>(func: Pipeline<R>, start: nat, before: Arena, msg: Value,
                            seen: seq<Arena>, targets: seq<Option<StageId>>, j: nat): Arena
    requires j < |seen| && j < |targets|
  {
    if j == 0 then RewindArena(before, targets[0], msg)
    else RewindArena(seen[j - 1], targets[j], FailureMsg(func(seen[j - 1], start + j - 1)))
  }

  /** Every call of the run saw the state `Rewound` describes. */
  ghost predicate RewindLog<R>(func: Pipeline<R>, start: nat, before: Arena, msg: Value,
                               seen: seq<Arena>, targets: seq<Option<StageId>>)
  {
    && |targets| == |seen|
    && forall j {:trigger Rewound(func, start, before, msg, seen, targets, j)} | 0 <= j < |seen| ::
         seen[j] == Rewound(func, start, before, msg, seen, targets, j)
  }

  lemma RewindLogConsAt<R>(func: Pipeline<R>, start: nat, before: Arena, msg: Value, s: Arena,
                           t: Option<StageId>, seen: seq<Arena>, targets: seq<Option<StageId>>, j: nat)
    requires s == RewindArena(before, t, msg)
    requires RewindLog(func, start + 1, s, FailureMsg(func(s, start)), seen, targets)
    requires j < |seen| + 1
    ensures ([s] + seen)[j] == Rewound(func, start, before, msg, [s] + seen, [t] + targets, j)
  {
    var all, ts := [s] + seen, [t] + targets;
    if j > 0 {
      var k := j - 1;
      assert all[j] == seen[k] && ts[j] == targets[k];
      assert seen[k] == Rewound(func, start + 1, s, FailureMsg(func(s, start)), seen, targets, k);
      var prev := if k == 0 then s else seen[k - 1];
      assert all[j - 1] == prev;
      assert seen[k] == RewindArena(prev, ts[j], FailureMsg(func(prev, start + j - 1)));
    } else {
      assert all[0] == s && ts[0] == t;
    }
  }

  lemma RewindLogCons<R>(func: Pipeline<R>, start: nat, before: Arena, msg: Value, s: Arena,
                         t: Option<StageId>, seen: seq<Arena>, targets: seq<Option<StageId>>)
    requires s == RewindArena(before, t, msg)
    requires RewindLog(func, start + 1, s, FailureMsg(func(s, start)), seen, targets)
    ensures RewindLog(func, start, before, msg, [s] + seen, [t] + targets)
  {
    forall j | 0 <= j < |seen| + 1
      ensures ([s] + seen)[j] == Rewound(func, start, before, msg, [s] + seen, [t] + targets, j)
    {
      RewindLogConsAt(func, start, before, msg, s, t, seen, targets, j);
    }
  }

  /** The state after a caught call: the new message, and the blame of its trace. */
  function AfterCaught<R>(cur: FeedbackState, a: Attempt<R>): (r: FeedbackState)
    requires Caught(a)
    ensures r.arena == cur.arena && r.records == cur.records
  {
    cur.(errorMsg := a.exc.error.msg, backtrack := Blame(a.trace, cur.backtrack))
  }

  /**
   * The loop of `assert_latest_feedback_transform`. `keepFirst` selects the
   * corrected code: the first recorded forward is kept and the rollback also
   * runs when an exception escapes. `FeedbackLoopLogs` states what a run is.
   */
  function FeedbackLoop<R>(func: Pipeline<R>, st: FeedbackState, limit: nat, i: nat,
                           keepFirst: bool): (r: Run<Arena, R>)
    requires i <= limit
    requires i == 0 ==> st.backtrack == None
    ensures |r.targets| == |r.seen| && r.final.Keys == st.arena.Keys
    decreases limit - i
  {
    if i == limit then Run(Exhausted, [], [], RollbackAll(st.arena, st.records))
    else
      var cur := RewindStep(st, i, keepFirst);
      var a := func(cur.arena, i);
      if Caught(a) then
        var rest := FeedbackLoop(func, AfterCaught(cur, a), limit, i + 1, keepFirst);
        Run(rest.outcome, [cur.arena] + rest.seen, [st.backtrack] + rest.targets, rest.final)
      else if a.Returned? then
        Run(Done(a.value), [cur.arena], [st.backtrack], RollbackAll(cur.arena, cur.records))
      else
        Run(Raised(a.exc), [cur.arena], [st.backtrack],
            if keepFirst then RollbackAll(cur.arena, cur.records) else cur.arena)
  }

  /** A caught call: the run is that call followed by the run from the next state. */
  lemma CaughtShape<R>(func: Pipeline<R>, st: FeedbackState, limit: nat, i: nat, keepFirst: bool)
    requires i < limit && (i == 0 ==> st.backtrack == None)
    requires Caught(func(RewindStep(st, i, keepFirst).arena, i))
    ensures var cur := RewindStep(st, i, keepFirst);
            var r := FeedbackLoop(func, st, limit, i, keepFirst);
            var rest := FeedbackLoop(func, AfterCaught(cur, func(cur.arena, i)), limit, i + 1, keepFirst);
            && r.seen == [cur.arena] + rest.seen
            && r.targets == [st.backtrack] + rest.targets
            && r.final == rest.final && r.outcome == rest.outcome
  {
  }

  /** A call that settles the loop: the run is that call, then the rollback. */
  lemma SettledShape<R>(func: Pipeline<R>, st: FeedbackState, limit: nat, i: nat, keepFirst: bool)
    requires i < limit && (i == 0 ==> st.backtrack == None)
    requires !Caught(func(RewindStep(st, i, keepFirst).arena, i))
    ensures var cur := RewindStep(st, i, keepFirst);
            var r := FeedbackLoop(func, st, limit, i, keepFirst);
            && r.seen == [cur.arena]
            && r.targets == [st.backtrack]
            && Settles(func(cur.arena, i), r.outcome, i + 1 == limit)
            && (keepFirst || !r.outcome.Raised? ==> r.final == RollbackAll(cur.arena, cur.records))
  {
  }

  /**
   * A run of the loop keeps the attempt-loop contract and the blame rule,
   * and each call saw the blamed predictor rewound with the newest message.
   */
  lemma {:induction false} FeedbackLoopLogs<R>(func: Pipeline<R>, st: FeedbackState, limit: nat, i: nat,
                                               keepFirst: bool)
    requires i <= limit && (i == 0 ==> st.backtrack == None)
    ensures var r := FeedbackLoop(func, st, limit, i, keepFirst);
            && AttemptLoop(func, i, limit, r.seen, r.outcome)
            && BlameLog(func, i, r.seen, r.targets)
            && RewindLog(func, i, st.arena, st.errorMsg, r.seen, r.targets)
            && (|r.seen| > 0 ==> r.targets[0] == st.backtrack)
    decreases limit - i
  {
    if i < limit {
      var cur := RewindStep(st, i, keepFirst);
      var a := func(cur.arena, i);
      if Caught(a) {
        var next := AfterCaught(cur, a);
        var rest := FeedbackLoop(func, next, limit, i + 1, keepFirst);
        CaughtShape(func, st, limit, i, keepFirst);
        FeedbackLoopLogs(func, next, limit, i + 1, keepFirst);
        AttemptLoopCons(func, i, limit, cur.arena, rest.seen, rest.outcome);
        BlameLogCons(func, i, cur.arena, st.backtrack, rest.seen, rest.targets);
        RewindLogCons(func, i, st.arena, st.errorMsg, cur.arena, st.backtrack, rest.seen, rest.targets);
      } else {
        var r := FeedbackLoop(func, st, limit, i, keepFirst);
        SettledShape(func, st, limit, i, keepFirst);
        AttemptLoopOne(func, i, limit, cur.arena, r.outcome);
        BlameLogCons(func, i, cur.arena, st.backtrack, [], []);
        RewindLogCons(func, i, st.arena, st.errorMsg, cur.arena, st.backtrack, [], []);
        assert [cur.arena] + [] == [cur.arena] && [st.backtrack] + [] == [st.backtrack];
      }
    }
  }

  /** The loop variables before the first attempt. */
  function Initial(arena: Arena): FeedbackState
  {
    FeedbackState(arena, None, NoneValue, map[])
  }

  /**
   * `assert_latest_feedback_transform(max_backtracks)(func)` as written:
   * retries like the other transforms, rewinding the blamed predictor with
   * the newest message before each retry, and rolling back afterwards.
   */
  function FeedbackTransform<R>(maxBacktracks: int, func: Pipeline<R>, arena: Arena)
    : (r: Run<Arena, R>)
    ensures AttemptLoop(func, 0, Limit(maxBacktracks), r.seen, r.outcome)
    ensures BlameLog(func, 0, r.seen, r.targets)
    ensures RewindLog(func, 0, arena, NoneValue, r.seen, r.targets)
    ensures |r.seen| > 0 ==> r.seen[0] == arena && r.targets[0] == None
    ensures r.final.Keys == arena.Keys
  {
    FeedbackLoopLogs(func, Initial(arena), Limit(maxBacktracks), 0, false);
    FeedbackLoop(func, Initial(arena), Limit(maxBacktracks), 0, false)
  }

  /**
   * The corrected transform: records only the first forward of each
   * predictor and rolls back on every exit path.
   */
  function CorrectedFeedbackTransform<R>(maxBacktracks: int, func: Pipeline<R>, arena: Arena)
    : (r: Run<Arena, R>)
    ensures AttemptLoop(func, 0, Limit(maxBacktracks), r.seen, r.outcome)
    ensures BlameLog(func, 0, r.seen, r.targets)
    ensures RewindLog(func, 0, arena, NoneValue, r.seen, r.targets)
    ensures |r.seen| > 0 ==> r.seen[0] == arena && r.targets[0] == None
    ensures r.final.Keys == arena.Keys
  {
    FeedbackLoopLogs(func, Initial(arena), Limit(maxBacktracks), 0, true);
    FeedbackLoop(func, Initial(arena), Limit(maxBacktracks), 0, true)
  }

  /**
   * During a retry, the blamed predictor has a `feedback` field, and calling
   * its forward without `feedback` passes the previous failure's message;
   * a caller-supplied `feedback` wins.
   */
  lemma FeedbackReachesBlamed<R>(maxBacktracks: int, func: Pipeline<R>, arena: Arena,
                                 j: nat, h: StageId, kwargs: Kwargs)
    requires var r := FeedbackTransform(maxBacktracks, func, arena);
             0 < j < |r.seen| && r.targets[j] == Some(h) && h in r.seen[j - 1]
    ensures var r := FeedbackTransform(maxBacktracks, func, arena);
            && h in r.seen[j]
            && FeedbackKey in KeySet(r.seen[j][h].signature.fields)
            && Invoke(r.seen[j][h].forward, kwargs)
               == Invoke(r.seen[j - 1][h].forward,
                         if FeedbackKey in kwargs then kwargs
                         else kwargs[FeedbackKey := FailureMsg(func(r.seen[j - 1], j - 1))])
  {
    var r := FeedbackTransform(maxBacktracks, func, arena);
    assert r.seen[j] == Rewound(func, 0, arena, NoneValue, r.seen, r.targets, j);
    var p := r.seen[j - 1][h];
    assert r.seen[j][h] == RewindPredictor(p, FailureMsg(func(r.seen[j - 1], j - 1)));
    ExtendKeeps(p.signature, [(FeedbackKey, FeedbackField)]);
    assert KeySet([(FeedbackKey, FeedbackField)]) == {FeedbackKey};
    WrappedForwardDefaults(p.forward, FeedbackKey, FailureMsg(func(r.seen[j - 1], j - 1)), kwargs);
  }

  // ------------------------------------------------------------------- rollback

  lemma {:induction false} UnwrapStep(f: Forward, n: nat)
    ensures Unwrap(f, n + 1) == Unwrap(Unwrap(f, n), 1)
    decreases n
  {
    if n > 0 && f.WithDefaults? {
      UnwrapStep(f.inner, n - 1);
    }
  }

  lemma RewindsCons(t: Option<StageId>, targets: seq<Option<StageId>>, h: StageId)
    ensures Rewinds([t] + targets, h) == (if t == Some(h) then 1 else 0) + Rewinds(targets, h)
  {
    assert ([t] + targets)[1..] == targets;
  }

  /**
   * What the loop leaves of predictor `h`, relative to the state `st` it
   * started from, given the number `k` of rewinds to `h` in the run.
   */
  ghost predicate RolledBack(st: FeedbackState, h: StageId, k: nat, q: Predictor, keepFirst: bool)
    requires h in st.arena
  {
    var p := st.arena[h];
    && q.config == p.config
    && (k == 0 ==> q == (if h in st.records then RestorePredictor(p, st.records[h]) else p))
    && (k > 0 ==> q.signature == SignatureAfter(p.signature, k))
    && (k > 0 && keepFirst ==> q.forward == (if h in st.records then st.records[h] else p.forward))
    && (k > 0 && !keepFirst ==> Depth(q.forward) == Depth(p.forward) + k - 1
                                && Unwrap(q.forward, k - 1) == p.forward)
  }

  /** With no rewind left, the rollback leaves what the records say. */
  lemma RollbackNoRewind(st: FeedbackState, h: StageId, keepFirst: bool)
    requires h in st.arena
    ensures RolledBack(st, h, 0, RollbackAll(st.arena, st.records)[h], keepFirst)
  {
    RollbackAllAt(st.arena, st.records, h);
  }

  /** What the rewind step before a call does at predictor `h`. */
  lemma StepAt(st: FeedbackState, i: nat, keepFirst: bool, h: StageId)
    requires i == 0 ==> st.backtrack == None
    requires h in st.arena
    ensures var cur := RewindStep(st, i, keepFirst);
            && h in cur.arena
            && (st.backtrack != Some(h) ==>
                  && cur.arena[h] == st.arena[h]
                  && (h in cur.records <==> h in st.records)
                  && (h in st.records ==> cur.records[h] == st.records[h]))
            && (st.backtrack == Some(h) ==>
                  && cur.arena[h] == RewindPredictor(st.arena[h], st.errorMsg)
                  && h in cur.records
                  && cur.records[h] == if keepFirst && h in st.records then st.records[h]
                                       else st.arena[h].forward)
  {
    RewindArenaAt(st.arena, st.backtrack, st.errorMsg, h);
    RecordAt(st.records, st.arena, st.backtrack, keepFirst, h);
  }

  /** A call that settles the loop, after rewinding `h` itself: the rollback undoes that rewind. */
  lemma RollbackOwnRewind(st: FeedbackState, cur: FeedbackState, h: StageId, keepFirst: bool)
    requires h in st.arena && h in cur.arena
    requires cur.arena[h] == RewindPredictor(st.arena[h], st.errorMsg)
    requires h in cur.records
    requires cur.records[h] == if keepFirst && h in st.records then st.records[h] else st.arena[h].forward
    ensures RolledBack(st, h, 1, RollbackAll(cur.arena, cur.records)[h], keepFirst)
  {
    RollbackAllAt(cur.arena, cur.records, h);
  }

  /** A call that settles the loop, after rewinding another predictor. */
  lemma RollbackOtherRewind(st: FeedbackState, cur: FeedbackState, h: StageId, keepFirst: bool)
    requires h in st.arena && h in cur.arena
    requires cur.arena[h] == st.arena[h]
    requires h in cur.records <==> h in st.records
    requires h in st.records ==> cur.records[h] == st.records[h]
    ensures RolledBack(st, h, 0, RollbackAll(cur.arena, cur.records)[h], keepFirst)
  {
    RollbackAllAt(cur.arena, cur.records, h);
  }

  /** A caught call that rewound another predictor: nothing to account for at `h`. */
  lemma RollbackAfterOtherRewind(st: FeedbackState, next: FeedbackState, h: StageId,
                                 keepFirst: bool, k': nat, q: Predictor)
    requires h in st.arena && h in next.arena
    requires next.arena[h] == st.arena[h]
    requires h in next.records <==> h in st.records
    requires h in st.records ==> next.records[h] == st.records[h]
    requires RolledBack(next, h, k', q, keepFirst)
    ensures RolledBack(st, h, k', q, keepFirst)
  {
  }

  /** A caught call that rewound `h` itself: one more rewind to account for. */
  lemma RollbackAfterOwnRewind(st: FeedbackState, next: FeedbackState, h: StageId,
                               keepFirst: bool, k': nat, q: Predictor)
    requires h in st.arena && h in next.arena
    requires next.arena[h] == RewindPredictor(st.arena[h], st.errorMsg)
    requires h in next.records
    requires next.records[h] == if keepFirst && h in st.records then st.records[h] else st.arena[h].forward
    requires RolledBack(next, h, k', q, keepFirst)
    ensures RolledBack(st, h, 1 + k', q, keepFirst)
  {
    var p := st.arena[h];
    if k' > 0 {
      assert SignatureAfter(next.arena[h].signature, k') == SignatureAfter(p.signature, 1 + k');
      if !keepFirst {
        UnwrapStep(q.forward, k' - 1);
      }
    }
  }

  /**
   * The loop's rollback, by induction over the attempts: what it leaves of
   * each predictor, given how often that predictor was rewound.
   */
  lemma {:induction false} LoopRollback<R>(func: Pipeline<R>, st: FeedbackState, limit: nat, i: nat,
                                           keepFirst: bool, h: StageId)
    requires i <= limit && (i == 0 ==> st.backtrack == None)
    requires h in st.arena
    requires keepFirst || !FeedbackLoop(func, st, limit, i, keepFirst).outcome.Raised?
    ensures var r := FeedbackLoop(func, st, limit, i, keepFirst);
            h in r.final && RolledBack(st, h, Rewinds(r.targets, h), r.final[h], keepFirst)
    decreases limit - i, 1
  {
    if i == limit {
      RollbackNoRewind(st, h, keepFirst);
    } else if Caught(func(RewindStep(st, i, keepFirst).arena, i)) {
      LoopRollbackCaught(func, st, limit, i, keepFirst, h);
    } else {
      LoopRollbackSettled(func, st, limit, i, keepFirst, h);
    }
  }

  /** The inductive step: a caught call, then the rest of the loop. */
  lemma {:induction false} LoopRollbackCaught<R>(func: Pipeline<R>, st: FeedbackState, limit: nat, i: nat,
                                                 keepFirst: bool, h: StageId)
    requires i < limit && (i == 0 ==> st.backtrack == None)
    requires h in st.arena
    requires Caught(func(RewindStep(st, i, keepFirst).arena, i))
    requires keepFirst || !FeedbackLoop(func, st, limit, i, keepFirst).outcome.Raised?
    ensures var r := FeedbackLoop(func, st, limit, i, keepFirst);
            h in r.final && RolledBack(st, h, Rewinds(r.targets, h), r.final[h], keepFirst)
    decreases limit - i, 0
  {
    var cur := RewindStep(st, i, keepFirst);
    StepAt(st, i, keepFirst, h);
    var next := AfterCaught(cur, func(cur.arena, i));
    var rest := FeedbackLoop(func, next, limit, i + 1, keepFirst);
    CaughtShape(func, st, limit, i, keepFirst);
    RewindsCons(st.backtrack, rest.targets, h);
    LoopRollback(func, next, limit, i + 1, keepFirst, h);
    if st.backtrack == Some(h) {
      RollbackAfterOwnRewind(st, next, h, keepFirst, Rewinds(rest.targets, h), rest.final[h]);
    } else {
      RollbackAfterOtherRewind(st, next, h, keepFirst, Rewinds(rest.targets, h), rest.final[h]);
    }
  }

  /** The last call: it settles the loop, and the rollback follows. */
  lemma LoopRollbackSettled<R>(func: Pipeline<R>, st: FeedbackState, limit: nat, i: nat,
                               keepFirst: bool, h: StageId)
    requires i < limit && (i == 0 ==> st.backtrack == None)
    requires h in st.arena
    requires !Caught(func(RewindStep(st, i, keepFirst).arena, i))
    requires keepFirst || !FeedbackLoop(func, st, limit, i, keepFirst).outcome.Raised?
    ensures var r := FeedbackLoop(func, st, limit, i, keepFirst);
            h in r.final && RolledBack(st, h, Rewinds(r.targets, h), r.final[h], keepFirst)
  {
    var cur := RewindStep(st, i, keepFirst);
    StepAt(st, i, keepFirst, h);
    SettledShape(func, st, limit, i, keepFirst);
    RewindsCons(st.backtrack, [], h);
    if st.backtrack == Some(h) {
      RollbackOwnRewind(st, cur, h, keepFirst);
    } else {
      RollbackOtherRewind(st, cur, h, keepFirst);
    }
  }

  /** Extending a restorable signature with `feedback` more than once is extending it once. */
  lemma {:induction false} ExtendWithFeedbackNOnce(sig: Signature, n: nat)
    requires KeysUnique(sig.fields) && FeedbackKey !in KeySet(TailsOf(sig.fields))
    requires n > 0
    ensures ExtendWithFeedbackN(sig, n) == ExtendWithFeedback(sig)
  {
    ExtendIdempotent(sig, FeedbackKey, FeedbackField);
    FixedPointN(ExtendWithFeedback(sig), n - 1);
  }

  lemma {:induction false} FixedPointN(sig: Signature, n: nat)
    requires ExtendWithFeedback(sig) == sig
    ensures ExtendWithFeedbackN(sig, n) == sig
    decreases n
  {
    if n > 0 {
      FixedPointN(sig, n - 1);
    }
  }

  lemma {:induction false} SignatureAfterIsRevertN(sig: Signature, n: nat)
    requires n > 0
    ensures SignatureAfter(sig, n) == RevertFeedback(ExtendWithFeedbackN(sig, n))
    decreases n
  {
    if n > 1 {
      SignatureAfterIsRevertN(ExtendWithFeedback(sig), n - 1);
    }
  }

  /** However often a restorable signature is rewound, one revert gives it back. */
  lemma SignatureAfterRestores(sig: Signature, n: nat)
    requires Restorable(sig, FeedbackKey) && n > 0
    ensures SignatureAfter(sig, n) == sig
  {
    SignatureAfterIsRevertN(sig, n);
    TailsOfKeys(sig.fields);
    ExtendWithFeedbackNOnce(sig, n);
    ExtendRevertRoundTrip(sig, FeedbackKey, FeedbackField);
  }

  /**
   * The rollback of the code as written, for a predictor `h` rewound `k`
   * times in a run that did not end in an escaping exception: untouched if
   * never rewound; its config and (for a restorable signature) its signature
   * restored; its forward restored only if rewound once, since each later
   * rewind overwrites the record with the previous wrapper.
   */
  lemma FeedbackRollback<R>(maxBacktracks: int, func: Pipeline<R>, arena: Arena, h: StageId)
    requires h in arena
    requires !FeedbackTransform(maxBacktracks, func, arena).outcome.Raised?
    ensures var r := FeedbackTransform(maxBacktracks, func, arena);
            var k := Rewinds(r.targets, h);
            && h in r.final
            && r.final[h].config == arena[h].config
            && (k == 0 ==> r.final[h] == arena[h])
            && (k > 0 && Restorable(arena[h].signature, FeedbackKey) ==>
                  r.final[h].signature == arena[h].signature)
            && (k == 1 ==> r.final[h].forward == arena[h].forward)
            && (k >= 2 ==> && Depth(r.final[h].forward) == Depth(arena[h].forward) + k - 1
                           && Unwrap(r.final[h].forward, k - 1) == arena[h].forward)
  {
    var r := FeedbackTransform(maxBacktracks, func, arena);
    var k := Rewinds(r.targets, h);
    LoopRollback(func, Initial(arena), Limit(maxBacktracks), 0, false, h);
    if k > 0 && Restorable(arena[h].signature, FeedbackKey) {
      SignatureAfterRestores(arena[h].signature, k);
    }
  }

  /**
   * For a predictor with a restorable signature, the code as written gives it
   * back exactly as it was if and only if it was rewound at most once.
   */
  lemma FeedbackRestoresIffAtMostOnce<R>(maxBacktracks: int, func: Pipeline<R>, arena: Arena, h: StageId)
    requires h in arena && Restorable(arena[h].signature, FeedbackKey)
    requires !FeedbackTransform(maxBacktracks, func, arena).outcome.Raised?
    ensures var r := FeedbackTransform(maxBacktracks, func, arena);
            h in r.final && (r.final[h] == arena[h] <==> Rewinds(r.targets, h) <= 1)
  {
    FeedbackRollback(maxBacktracks, func, arena, h);
  }

  /**
   * The corrected transform gives back predictor `h` exactly, on every exit
   * path, however often it was rewound: a predictor never rewound is
   * untouched, and a rewound one needs a restorable signature.
   */
  lemma CorrectedRestoresPredictor<R>(maxBacktracks: int, func: Pipeline<R>, arena: Arena, h: StageId)
    requires h in arena
    requires Rewinds(CorrectedFeedbackTransform(maxBacktracks, func, arena).targets, h) == 0
             || Restorable(arena[h].signature, FeedbackKey)
    ensures var r := CorrectedFeedbackTransform(maxBacktracks, func, arena);
            h in r.final && r.final[h] == arena[h]
  {
    var r := CorrectedFeedbackTransform(maxBacktracks, func, arena);
    LoopRollback(func, Initial(arena), Limit(maxBacktracks), 0, true, h);
    var k := Rewinds(r.targets, h);
    if k > 0 {
      SignatureAfterRestores(arena[h].signature, k);
    }
  }

  /**
   * The corrected transform leaves the whole arena as it found it when every
   * rewound predictor has a restorable signature.
   */
  lemma CorrectedRestoresEveryPredictor<R>(maxBacktracks: int, func: Pipeline<R>, arena: Arena)
    requires forall h | h in arena ::
               Rewinds(CorrectedFeedbackTransform(maxBacktracks, func, arena).targets, h) == 0
               || Restorable(arena[h].signature, FeedbackKey)
    ensures CorrectedFeedbackTransform(maxBacktracks, func, arena).final == arena
  {
    var r := CorrectedFeedbackTransform(maxBacktracks, func, arena);
    forall h | h in arena
      ensures r.final[h] == arena[h]
    {
      CorrectedRestoresPredictor(maxBacktracks, func, arena, h);
    }
  }
}
