/**
 * Concrete runs: the end-to-end scenarios of the retry engine, and the
 * inputs that separate each transform as written from its correction.
 */
module Scenarios {
  import opened Wrappers
  import opened Traces
  import opened Assertions
  import opened Signatures
  import opened Predictors
  import opened Retry
  import opened Feedback

  const TooLong: Value := StrValue("Answer should be short")

  /** A question-answering predictor at handle 0. */
  const QA: Predictor :=
    Predictor(map[], Signature("Answer questions.",
                               [("question", Descriptor(InputField, "Question:", "")),
                                ("answer", Descriptor(OutputField, "Answer:", ""))]),
              Base(0))

  /** A retrieval predictor at handle 1 that runs before `QA`. */
  const Retrieve: Predictor :=
    Predictor(map["n" := IntValue(3)], Signature("Find passages.",
                                                 [("query", Descriptor(InputField, "Query:", "")),
                                                  ("passages", Descriptor(OutputField, "Passages:", ""))]),
              Base(1))

  const OneStage: Arena := map[0 := QA]

  const TwoStages: Arena := map[0 := QA, 1 := Retrieve]

  /** A trace entry written by predictor `h`. */
  function EntryOf(h: StageId): TraceEntry
  {
    TraceEntry(h, map[], map[])
  }

  /** A caught assertion failure observed with trace `t`. */
  function FailWith<R>(t: Trace): Attempt<R>
  {
    Threw(AssertionFailed(AssertionError(TooLong, t)), t)
  }

  /** Fails on attempts 0 and 1, blaming `QA`; answers 42 on attempt 2. */
  function FailTwice(arena: Arena, i: nat): Attempt<int>
  {
    if i < 2 then FailWith([EntryOf(0)]) else Returned(42)
  }

  /** Fails once, blaming `QA`, then raises an error the loop does not catch. */
  function FailThenCrash(arena: Arena, i: nat): Attempt<int>
  {
    if i == 0 then FailWith([EntryOf(0)]) else Threw(OtherError("RuntimeError"), [])
  }

  /** Always fails, with nothing in the trace. */
  function FailUntraced(arena: Arena, i: nat): Attempt<int>
  {
    FailWith([])
  }

  /** Fails on attempt 0 after `Retrieve` and then `QA` ran; answers on attempt 1. */
  function FailAfterBoth(arena: Arena, i: nat): Attempt<int>
  {
    if i == 0 then FailWith([EntryOf(1), EntryOf(0)]) else Returned(7)
  }

  /** The temperature-override pipeline failing untraced on every attempt. */
  function FailUntracedAt(t: Option<real>, i: nat): Attempt<int>
  {
    FailWith([])
  }

  /** `QA`'s signature can be extended with `feedback` and reverted exactly. */
  lemma QARestorable()
    ensures Restorable(QA.signature, FeedbackKey)
  {
    var fs := QA.signature.fields;
    assert fs[1..][1..] == [];
    assert KeySet(fs) == {"question", "answer"};
    assert InputsOf(fs[1..]) == [];
    assert TailsOf(fs[1..]) == fs[1..];
    assert InputsOf(fs) + TailsOf(fs) == fs;
  }

  /** The last attempt of scenario A: it answers, and the rollback restores the recorded forward. */
  lemma FailTwiceLastAttempt(st: FeedbackState)
    requires st.backtrack == Some(0) && 0 in st.arena
    ensures var r := FeedbackLoop(FailTwice, st, 3, 2, false);
            && r.outcome == Done(42) && r.targets == [Some(0)]
            && 0 in r.final && r.final[0].forward == st.arena[0].forward
  {
    var cur := RewindStep(st, 2, false);
    StepAt(st, 2, false, 0);
    SettledShape(FailTwice, st, 3, 2, false);
    RollbackAllAt(cur.arena, cur.records, 0);
  }

  /** The middle attempt of scenario A: `QA` is rewound once, then fails again. */
  lemma FailTwiceMiddleAttempt(st: FeedbackState)
    requires st.backtrack == Some(0) && st.errorMsg == TooLong && st.arena == OneStage
    ensures var r := FeedbackLoop(FailTwice, st, 3, 1, false);
            && r.outcome == Done(42) && r.targets == [Some(0), Some(0)]
            && 0 in r.final && r.final[0].forward == FeedbackWrapper(QA.forward, TooLong)
  {
    var cur := RewindStep(st, 1, false);
    StepAt(st, 1, false, 0);
    CaughtShape(FailTwice, st, 3, 1, false);
    var next := AfterCaught(cur, FailTwice(cur.arena, 1));
    FailTwiceLastAttempt(next);
  }

  /**
   * Scenario A on the feedback transform as written: two failures blamed on
   * `QA`, then success. Three calls, attempt 2's answer, `QA` rewound twice;
   * the rollback leaves the first feedback wrapper on `QA.forward`.
   */
  lemma TwoRewindsKeepWrapper()
    ensures var r := FeedbackTransform(DefaultMaxBacktracks, FailTwice, OneStage);
            && r.outcome == Done(42)
            && |r.seen| == 3
            && r.targets == [None, Some(0), Some(0)]
            && 0 in r.final
            && r.final[0].forward == FeedbackWrapper(QA.forward, TooLong)
            && r.final[0] != QA
  {
    var st := Initial(OneStage);
    var cur := RewindStep(st, 0, false);
    CaughtShape(FailTwice, st, 3, 0, false);
    var next := AfterCaught(cur, FailTwice(cur.arena, 0));
    FailTwiceMiddleAttempt(next);
  }

  /** Scenario A on the corrected feedback transform: `QA` comes back exactly. */
  lemma TwoRewindsCorrected()
    ensures CorrectedFeedbackTransform(DefaultMaxBacktracks, FailTwice, OneStage).final == OneStage
  {
    QARestorable();
    CorrectedRestoresEveryPredictor(DefaultMaxBacktracks, FailTwice, OneStage);
  }

  /**
   * An error the loop does not catch skips the rollback as written: the
   * feedback field and wrapper stay on `QA` after the exception escapes.
   */
  lemma RaisedSkipsRollback()
    ensures var r := FeedbackTransform(1, FailThenCrash, OneStage);
            && r.outcome == Raised(OtherError("RuntimeError"))
            && 0 in r.final
            && r.final[0] == RewindPredictor(QA, TooLong)
            && FeedbackKey in KeySet(r.final[0].signature.fields)
  {
    var st0 := Initial(OneStage);
    var cur0 := RewindStep(st0, 0, false);
    CaughtShape(FailThenCrash, st0, 2, 0, false);
    var st1 := AfterCaught(cur0, FailThenCrash(cur0.arena, 0));
    var cur1 := RewindStep(st1, 1, false);
    StepAt(st1, 1, false, 0);
    var r1 := FeedbackLoop(FailThenCrash, st1, 2, 1, false);
    assert r1.final == cur1.arena;
    ExtendKeeps(QA.signature, [(FeedbackKey, FeedbackField)]);
    assert KeySet([(FeedbackKey, FeedbackField)]) == {FeedbackKey};
  }

  /** With the rollback on every path, the escaping error leaves `QA` as it was. */
  lemma RaisedCorrected()
    ensures var r := CorrectedFeedbackTransform(1, FailThenCrash, OneStage);
            r.outcome == Raised(OtherError("RuntimeError")) && r.final == OneStage
  {
    QARestorable();
    CorrectedRestoresEveryPredictor(1, FailThenCrash, OneStage);
    var st0 := Initial(OneStage);
    var cur0 := RewindStep(st0, 0, true);
    CaughtShape(FailThenCrash, st0, 2, 0, true);
  }

  /**
   * `assert_update_transform` as written: an untraced first failure leaves
   * `backtrack_to` unbound, so the second attempt raises instead of running.
   */
  lemma UnboundBacktrackRaises()
    ensures var r := UpdateTransform(DefaultMaxBacktracks, FailUntracedAt);
            r.outcome == Raised(UnboundLocalError("backtrack_to")) && |r.seen| == 1
  {
    assert UnboundAfterFirstFailure(FailUntracedAt, Limit(DefaultMaxBacktracks));
  }

  /** The corrected update transform uses all three attempts and gives no result. */
  lemma UnboundCorrected()
    ensures var r := CorrectedUpdateTransform(DefaultMaxBacktracks, FailUntracedAt);
            r.outcome == Exhausted && |r.seen| == 3 && r.seen == [None, None, None]
  {
    var r := CorrectedUpdateTransform(DefaultMaxBacktracks, FailUntracedAt);
    ExhaustedIffAllCaught(FailUntracedAt, 3, r.seen, r.outcome);
    assert forall j | 0 < j < |r.seen| :: r.targets[j] == None;
  }

  /**
   * Scenario B: one attempt allowed, an untraced failure: one call and no
   * result, the failure swallowed.
   */
  lemma ExhaustedWithoutTrace()
    ensures var r := AssertTransform(0, FailUntraced, OneStage);
            r.outcome == Exhausted && |r.seen| == 1
  {
    var r := AssertTransform(0, FailUntraced, OneStage);
    ExhaustedIffAllCaught(FailUntraced, 1, r.seen, r.outcome);
  }

  /**
   * Scenario C: the failure's trace ends with `QA`, so only `QA` is retuned
   * for the second attempt; `Retrieve` keeps its config.
   */
  lemma LatestRetunesLastStage()
    ensures var r := LatestTransform(1, FailAfterBoth, TwoStages);
            && r.outcome == Done(7)
            && |r.seen| == 2
            && r.targets[1] == Some(0)
            && r.seen[1][0].config[TemperatureKey] == RealValue(LatestTemperature(1))
            && r.seen[1][1] == Retrieve
  {
    var r := LatestTransform(1, FailAfterBoth, TwoStages);
    assert |r.seen| > 0;
    assert r.seen[0] == TwoStages;
    assert Caught(FailAfterBoth(r.seen[0], 0));
    assert |r.seen| == 2;
    assert r.targets[1] == Blame([EntryOf(1), EntryOf(0)], None);
    TemperatureLogAt(0, TwoStages, r.seen, r.targets, 1);
  }
}
