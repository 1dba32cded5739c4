# DSPy assertions and backtracking, modelled in Dafny

This project models the assertion-driven retry engine of DSPy,
`dspy/primitives/assertions.py`, and proves properties of the model.

- **`Assert`** is a check that runs eagerly when it is constructed. For a
  predicate that returns normally there are three outcomes. If the predicate returns `True`, nothing is raised. If it
  returns `False`, `DSPyAssertionError` is raised, carrying the `msg` keyword
  argument and the trace at that moment. If it returns anything else,
  `ValueError` is raised.
- **Three retry decorators** re-run a DSPy program (the wrapped `func`) up to
  `max_backtracks + 1` times, while it keeps raising `DSPyAssertionError`:
  - `assert_transform` re-runs blindly.
  - `assert_latest_transform` sets `temperature` in the config of the blamed
    predictor only.
  - `assert_latest_feedback_transform` changes the blamed predictor. It adds a
    `feedback` input field to its signature. It wraps its `forward` so that the
    field defaults to the last assertion message. After the loop it rolls every
    rewound predictor back.
- **`assert_update_transform`** is the older variant. It re-runs the whole
  program at a raised temperature.
- **The blame rule:** the predictor blamed for a failure is the stage of the
  last entry of the failure's trace. An empty trace keeps the previous blame.
- **The three signature helpers of the feedback transform:**
  - `_extend_predictor_signature` inserts fields in order.
  - `_revert_predictor_signature` removes keys.
  - `_wrap_forward_with_set_fields` fills defaults with `setdefault`.

## How the model is built

- **Modules.**
  - `Traces`: values, trace entries and the blame rule.
  - `Assertions`: `Assert` and `DSPyAssertionError`.
  - `Signatures`: templates as insertion-ordered field lists, with extend and revert.
  - `Predictors`: forward wrapper layers, the arena of predictors, temperature updates.
  - `Retry`: the attempt-loop contract, and the blind, update and latest transforms.
  - `Feedback`: the feedback transform and its rollback.
  - `Scenarios`: concrete end-to-end runs.
- **Predictors live in an arena.** The arena maps stable handles to immutable
  records. Each record has a config map, a signature and a `forward` layer
  stack. Python object identity becomes the handle.
- **The wrapped program is a total function.** It takes the predictors' state
  and the attempt index, and says what that call does: return a value, or
  raise an exception with the trace recorded so far. The global
  `dsp.settings.trace` becomes the trace attached to each failure.
- **A run is a value.** It records:
  - the outcome;
  - the state each call saw (`seen`);
  - `backtrack_to` before each call (`targets`);
  - the state left at the end (`final`).
- **What each contract means is stated separately, as ghost predicates.**
  - `AttemptLoop`: every call but the last was caught, and the last settles the outcome.
  - `BlameLog`: the blame rule held between consecutive calls.
  - `OverrideLog`, `TemperatureLog`, `RewindLog`: what each call saw.
  The loops are proved against these predicates by induction.
- **Exhaustion is `Exhausted`.** When every attempt fails, Python returns
  `None`; the model calls that outcome `Exhausted`.
- **The attempt count is `Limit(max_backtracks)`.** It is
  `max(0, max_backtracks + 1)`, as `range` gives.

Three behaviours of the code stand out:

- **Escaping exceptions skip the rollback.** The rollback at lines 248-256
  runs only after the loop ends normally. It is not in a `finally`, so an
  exception other than `DSPyAssertionError` leaves the rewound predictors
  changed.
- **The original forward is not kept.** The dictionary
  `extended_predictors_to_original_forward` (line 165) and the comments at
  lines 221 and 248 say that the original `forward` is saved and restored.
  But the entry is overwritten on every rewind, so a predictor rewound twice
  gets back its first feedback wrapper, not its original forward.
- **Untraced failures keep the previous blame.** After an untraced failure,
  `backtrack_to` keeps its previous value, so the predictor blamed before is
  changed again. In `assert_update_transform` nothing initialises
  `backtrack_to` (the other transforms do, at lines 120 and 162), so an
  untraced first failure makes the next attempt raise `UnboundLocalError`.

The model follows the code in each case. The Findings below show the first,
the second and the `UnboundLocalError`; for each, a corrected definition is
proved alongside the definition as written.

## Model

| member | source | states |
|---|---|---|
| Assertions.Construct | dspy/primitives/assertions.py:21-43 | Construction takes `msg` out of the kwargs, so that `MessageOf` gives the `msg` value or `""`. Constructing an `Assert` succeeds iff the predicate, called without the `msg` key, returns `True`. A `False` result raises `DSPyAssertionError` carrying the `msg` kwarg (`""` if absent) and the current trace. Any non-bool result raises `ValueError`, never `DSPyAssertionError`. |
| Assertions.Call | dspy/primitives/assertions.py:35-43 | Calling an `Assert` gives `True` iff the predicate gives `True`. `DSPyAssertionError` with the stored message and the trace comes exactly on `False`; `ValueError` exactly on a non-bool. |
| Assertions.ConstructedAssertPasses | dspy/primitives/assertions.py:21-43 | An `Assert` whose construction succeeded passes again when called later, whatever the trace then is. This holds for a predicate that is a pure function of its stored arguments, and for arguments nobody has mutated since construction. |
| Traces.Blame | dspy/primitives/assertions.py:140-145 | After an untraced failure, `backtrack_to` keeps its previous value. After a traced failure, it names a stage that occurs in the trace. |
| Traces.BlameIsMostRecent | dspy/primitives/assertions.py:140-141 | The blamed stage is the stage of the last trace entry. |
| Traces.BlameOfConcatenation | dspy/primitives/assertions.py:140-145 | Blaming a trace in two pieces is the same as blaming it whole. A later non-empty piece decides. |
| Signatures.Put | dspy/primitives/assertions.py:175 | A dict write adds the key, keeps keys distinct, and appends at the end when the key is new. |
| Signatures.PutReplaces | dspy/primitives/assertions.py:175 | Writing an existing key overwrites that entry in place, keeping its position. |
| Signatures.PutAll | dspy/primitives/assertions.py:175-182 | `dict.update` yields exactly the union of keys, and keeps keys distinct. |
| Signatures.PutAllFresh | dspy/primitives/assertions.py:176-182 | Updating with keys that are all new appends them in their order. |
| Signatures.InputsOfEntries | dspy/primitives/assertions.py:170-174 | The input comprehension keeps exactly the `InputField` entries. |
| Signatures.TailsOfEntries | dspy/primitives/assertions.py:176-181 | The second comprehension keeps exactly the `dsp.Type` and `OutputField` entries. |
| Signatures.ExtendKeeps | dspy/primitives/assertions.py:167-188 | `Extend` (the whole of `_extend_predictor_signature`) keeps the instructions. Its keys are the inputs', the new fields' and the outputs'. It keeps keys distinct. Every entry is a new field or an old entry of a kept kind, so other kinds are dropped. |
| Signatures.ExtendOrder | dspy/primitives/assertions.py:167-188 | With fresh, distinct new keys, the fields `Extend` produces are the old inputs in order, then the new fields, then the old `dsp.Type`/output entries in order. |
| Signatures.ExtendReplacesInput | dspy/primitives/assertions.py:170-175 | A new field whose key is already an input keeps that input's position and takes the new value. |
| Signatures.ExtendIdempotent | dspy/primitives/assertions.py:167-188 | Extending twice with the same input field gives the same signature as extending once. |
| Signatures.RemoveKey | dspy/primitives/assertions.py:194 | `pop(key, None)` removes exactly that key, and is a no-op when the key is absent. |
| Signatures.RemoveKeyConcat | dspy/primitives/assertions.py:194 | Removal keeps every other entry in its relative order. |
| Signatures.RemoveKeys | dspy/primitives/assertions.py:193-194 | Popping each name removes exactly the named keys. |
| Signatures.Revert | dspy/primitives/assertions.py:190-198 | Reverting keeps the instructions and removes exactly the named keys. |
| Signatures.RevertAbsent | dspy/primitives/assertions.py:190-198 | Reverting names that are absent leaves the signature unchanged. |
| Signatures.RevertIdempotent | dspy/primitives/assertions.py:190-198 | Reverting twice with the same names equals reverting once. |
| Signatures.ExtendRevertRoundTrip | dspy/primitives/assertions.py:167-198 | Reverting a field after extending with it gives back the original signature. This holds when the original has distinct keys, lacks that key, holds only input, `dsp.Type` and output entries (no entries of other kinds), and lists all inputs before the others. |
| Predictors.SetDefaults | dspy/primitives/assertions.py:205-206 | The `setdefault` loop adds exactly the defaults' keys and never changes a value the caller supplied. |
| Predictors.SetDefaultsFirstWins | dspy/primitives/assertions.py:205-206 | A key the caller omitted takes the first default listed for it. |
| Predictors.Invoke | dspy/primitives/assertions.py:204-208 | Calling through any stack of wrappers passes every caller-supplied kwarg through unchanged to the innermost forward. |
| Predictors.WrapForward | dspy/primitives/assertions.py:200-210 | The new forward differs from the old one, adds exactly one layer, and has the old forward directly beneath it. |
| Predictors.WrappedForwardDefaults | dspy/primitives/assertions.py:200-210 | The wrapped forward behaves as the previous forward called with the default filled in, only when the caller omitted that key. A caller-supplied value wins. |
| Predictors.SetTemperature | dspy/primitives/assertions.py:131 | `update_config(temperature=t)` sets the temperature of the named predictor only. Its signature, forward and other config keys stay as they were. No other predictor changes. |
| Predictors.SetTemperatureOnlyTemperature | dspy/primitives/assertions.py:126-131 | After a temperature update, every predictor differs from before at most in its temperature. |
| Retry.BlindLoop | dspy/primitives/assertions.py:59-69 | The blind loop from attempt `i` keeps the attempt-loop contract. Every call sees the unchanged predictors and nothing is blamed. |
| Retry.AssertTransform | dspy/primitives/assertions.py:53-73 | There are at most `Limit(max_backtracks)` calls (`max_backtracks + 1`, or none for a negative argument, as `range` gives), and every call but the last raised `DSPyAssertionError`. The first value is returned; any other exception propagates at once; exhaustion gives no result. The predictors are never changed. |
| Retry.ExhaustedIffAllCaught | dspy/primitives/assertions.py:59-69 | A run gives no result iff it made all `Limit(max_backtracks)` calls and every one raised `DSPyAssertionError`. |
| Retry.OtherExceptionStops | dspy/primitives/assertions.py:59-62 | If the first call raises something other than `DSPyAssertionError`, it is the only call and that exception propagates. |
| Retry.UpdateLoop | dspy/primitives/assertions.py:82-102 | From attempt `i` on, each call after a blamed failure runs at temperature `0.71 + 0.002 * i`, and `backtrack_to` follows the blame rule. Once `backtrack_to` is set, the attempt-loop contract holds. |
| Retry.UpdateTransform | dspy/primitives/assertions.py:76-106 | Attempt 0 runs without an override, and every later call runs at `0.71 + 0.002 * i`. Otherwise the attempt-loop contract holds, except for one case: an untraced first failure with a second attempt allowed raises `UnboundLocalError` after one call. |
| Retry.CorrectedUpdateTransform | dspy/primitives/assertions.py:82-102 | With `backtrack_to` initialised to `None`, the attempt-loop contract, the blame rule and the temperature override hold on every input. |
| Retry.Perturb | dspy/primitives/assertions.py:123-131 | Before attempt `i`, only the blamed predictor's temperature is set, to `0.7 + 0.001 * i`. Attempt 0 never changes anything. |
| Retry.LatestLoopLogs | dspy/primitives/assertions.py:120-145 | `LatestLoop`, the loop of lines 122-145 from attempt `i` on, keeps the attempt-loop contract and the blame rule. Each call sees the previous state with only the then-blamed predictor's temperature updated. |
| Retry.LatestTransform | dspy/primitives/assertions.py:109-149 | The same attempt-loop contract and blame rule as the other transforms. Attempt 0 sees the original predictors. Each later call sees the previous state with only the blamed predictor's temperature set to `0.7 + 0.001 * i`. The predictors stay as the last call saw them. |
| Retry.LatestOnlyTemperatures | dspy/primitives/assertions.py:122-131 | During a run, every predictor differs from its original at most in its config's temperature. |
| Retry.LatestUnblamedUnchanged | dspy/primitives/assertions.py:122-131 | A predictor that was not blamed before any of the first `j + 1` attempts is exactly as it was when attempt `j` runs. |
| Feedback.RewindArenaAt | dspy/primitives/assertions.py:213-232 | `RewindArena`, the rewind before an attempt, extends and wraps the blamed predictor only. Every other predictor is untouched. |
| Feedback.RecordAt | dspy/primitives/assertions.py:221-224 | `Record`, the bookkeeping write, stores the blamed predictor's current forward, overwriting any earlier entry. The corrected record keeps the first entry. Other entries are untouched. |
| Feedback.RollbackAllAt | dspy/primitives/assertions.py:249-256 | `RollbackAll`, the loop at lines 249-256, removes `feedback` from each recorded predictor and resets its forward to the recorded one. Unrecorded predictors are untouched. |
| Feedback.RewindStep | dspy/primitives/assertions.py:213-232 | One rewind step does the arena rewind (`RewindArena`) and the record write (`Record`) for the same blamed predictor. It leaves `backtrack_to` and the last message for the handler to change. |
| Feedback.AfterCaught | dspy/primitives/assertions.py:237-246 | A caught failure changes neither the predictors nor the record. |
| Feedback.FeedbackLoopLogs | dspy/primitives/assertions.py:212-246 | `FeedbackLoop`, the loop of lines 212-246 with the rollback after it, keeps the attempt-loop contract and the blame rule. Each call sees the previous state with the then-blamed predictor rewound, using the message of the previous failure. |
| Feedback.FeedbackTransform | dspy/primitives/assertions.py:160-258 | As written, the transform keeps the attempt-loop contract and the blame rule. Attempt 0 sees the original predictors. Each retry sees the blamed predictor rewound with the newest message. No predictor is lost or added. |
| Feedback.CorrectedFeedbackTransform | dspy/primitives/assertions.py:212-256 | The corrected transform has the same per-attempt behaviour, with the first record kept and the rollback on every exit. |
| Feedback.FeedbackReachesBlamed | dspy/primitives/assertions.py:226-232 | During a retry the blamed predictor has a `feedback` field. Calling it without `feedback` passes the previous failure's message; a caller-supplied `feedback` wins. |
| Feedback.LoopRollback | dspy/primitives/assertions.py:212-256 | As written, after success or exhaustion, and under the correction on every exit path: for a predictor rewound `k` times in the run, proved by induction over the attempts. With `k = 0` it is left as the records say. Its config is unchanged. With `k > 0` its signature is `SignatureAfter(k)`, the signature after `k` extensions with `feedback` and one revert. As written, its forward then has `k - 1` wrapper layers above the original. Under the correction, its forward is the first one recorded. |
| Feedback.SignatureAfterRestores | dspy/primitives/assertions.py:167-198 | However often a restorable signature is extended with `feedback`, one revert gives it back. |
| Feedback.FeedbackRollback | dspy/primitives/assertions.py:221-256 | As written, after success or exhaustion: a predictor never rewound is unchanged; every config is restored; a restorable signature is restored. A forward rewound once is restored. A forward rewound `k >= 2` times keeps `k - 1` wrapper layers above the original. |
| Feedback.FeedbackRestoresIffAtMostOnce | dspy/primitives/assertions.py:221-256 | As written, after success or exhaustion, a predictor with a restorable signature comes back exactly as it was iff it was rewound at most once. An escaping exception skips the rollback, so there one rewind already leaves it changed. |
| Feedback.CorrectedRestoresPredictor | dspy/primitives/assertions.py:248-256 | The corrected transform gives back each predictor exactly, on every exit path, however often it was rewound. A predictor never rewound is untouched; a rewound one needs a restorable signature. Other predictors do not matter. |
| Feedback.CorrectedRestoresEveryPredictor | dspy/primitives/assertions.py:248-256 | The corrected transform leaves the whole arena as it found it when every rewound predictor has a restorable signature. |
| Scenarios.TwoRewindsKeepWrapper | dspy/primitives/assertions.py:212-256 | With the default `max_backtracks = 2`, failures at attempts 0 and 1 both blamed on one predictor, and success at attempt 2, there are three calls and attempt 2's result is returned. The predictor is left with the first feedback wrapper. |
| Scenarios.TwoRewindsCorrected | dspy/primitives/assertions.py:221-256 | The same run under the corrected transform leaves the predictors exactly as before. |
| Scenarios.RaisedSkipsRollback | dspy/primitives/assertions.py:234-256 | A non-assertion exception after one rewind propagates, and leaves the predictor with its `feedback` field and wrapper. |
| Scenarios.RaisedCorrected | dspy/primitives/assertions.py:234-256 | The same run under the corrected transform propagates the exception and leaves the predictors exactly as before. |
| Scenarios.UnboundBacktrackRaises | dspy/primitives/assertions.py:82-98 | Under `assert_update_transform`, an untraced first failure makes the second attempt raise `UnboundLocalError` after one call. |
| Scenarios.UnboundCorrected | dspy/primitives/assertions.py:82-102 | The corrected update transform makes all three calls without an override and returns no result. |
| Scenarios.ExhaustedWithoutTrace | dspy/primitives/assertions.py:59-69 | With `max_backtracks = 0` and an untraced failure, there is one call and no result. |
| Scenarios.LatestRetunesLastStage | dspy/primitives/assertions.py:120-145 | A failure whose trace is `[Retrieve, QA]` retunes `QA` only for the next attempt. `Retrieve` keeps its config. |

## Left out

- The `print` diagnostics, including the "UNREACHABLE: No trace available"
  message, are not modelled. They are advisory output only.
- `assert_update_transform`'s `lm.copy(...)` and `dsp.settings.context(...)`
  plumbing is not modelled. It reads a global settings object that is not
  part of this model. The wrapped program receives the temperature override,
  or `None`, as a parameter instead.
- Temperatures are exact rationals, not floating point: `0.7 + 0.001 * i` and
  `0.71 + 0.002 * i`.
- The internals of `dsp.Template`, `dspy.InputField`/`OutputField` and
  `dsp.Type` are not modelled. A field is its name, its kind, a prefix and a
  description.
- `_revert_predictor_signature` mutates the old template's keyword dictionary
  in place. Signatures are immutable values here, so that aliasing has no
  counterpart.
- The caching layer, and the meaning of cache hits and misses, are not modelled.
- `id()`-based identity is replaced by stable arena handles. A blamed handle
  that is not in the arena changes nothing.
- Concurrency is not modelled. The loop is single-threaded.
- The wrapped function's `*args`/`**kwargs` are folded into the program.
  Each call is a function of the predictor state and the attempt index.
- A program that itself returns `None` is not distinguished from exhaustion
  in the Python code. The model keeps `Done(value)` and `Exhausted` apart.
- Feedback.FeedbackRollback: it states the depth of the surviving wrapper
  stack and the original forward beneath it, not the messages the surviving
  layers carry. It covers only runs that do not end in an escaping exception,
  because the code as written skips the rollback on that path.
- Feedback.FeedbackRollback: signature restoration is stated only for
  signatures that have distinct keys, no `feedback` key, no entries of
  kinds other than input, `dsp.Type` and output, and all inputs before the
  others. Otherwise extend-then-revert reorders the fields or
  drops entries of other kinds.
- Assertions.Construct: an exception raised inside the predicate is not
  modelled. Lines 32 and 36 call it without a `try`, so such an exception
  would pass out of `Assert(...)` unchanged, as a fourth outcome beside
  success, `DSPyAssertionError` and `ValueError`. The same holds for
  `Assertions.Call`.
- Assertions.ConstructedAssertPasses: the predicate is a pure function of
  immutable values. A Python predicate can read mutable arguments or global
  state, and then a later `__call__` may fail where construction passed.
- The wrapped program never changes a predictor itself. It returns only an
  outcome, never a new arena. So it cannot touch a predictor's config,
  signature or forward. These rest on it:
  - `Feedback.FeedbackRollback`'s restored config;
  - `Feedback.LoopRollback`, `Feedback.FeedbackRestoresIffAtMostOnce`,
    `Feedback.CorrectedRestoresPredictor` and
    `Feedback.CorrectedRestoresEveryPredictor`;
  - `Retry.LatestTransform`'s final state;
  - `Retry.LatestOnlyTemperatures` and `Retry.LatestUnblamedUnchanged`.
- `DSPyAssertionError.state` holds a reference to the live
  `dsp.settings.trace` list. The model stores the trace as an immutable
  copy. A `None` trace is folded into the empty trace.
- The default `max_backtracks=2` of the four decorators is the constant
  `Retry.DefaultMaxBacktracks`. The transforms themselves take the argument
  explicitly, since Dafny functions have no default parameters.
- Retry.OtherExceptionStops: it states the first-call case. The general case
  is part of the attempt-loop contract (`AttemptLoop`), which every transform
  ensures.

## Findings

| source | as written | input that shows it | evidently intended | confidence | as-written member | corrected member |
|---|---|---|---|---|---|---|
| dspy/primitives/assertions.py:221-224 | The original `forward` is recorded on every rewind, so a second rewind overwrites the record with the first wrapper. | `max_backtracks = 2`; failures at attempts 0 and 1 both traced to `QA`; success at attempt 2. | Record a predictor's forward only on its first rewind, so that rollback restores the original forward that line 221's comment and the dictionary's name (line 165) refer to. | not executed | Scenarios.TwoRewindsKeepWrapper | Scenarios.TwoRewindsCorrected |
| dspy/primitives/assertions.py:234-256 | Only `DSPyAssertionError` is caught, and the rollback follows the loop rather than a `finally`, so an escaping exception skips it. | `max_backtracks = 1`; attempt 0 fails traced to `QA`; attempt 1 raises `RuntimeError`. | Restore every rewound predictor on every exit path, as the comment at line 248 says ("revert any extended predictors to their originals"). | not executed | Scenarios.RaisedSkipsRollback | Scenarios.RaisedCorrected |
| dspy/primitives/assertions.py:85 | `backtrack_to` is never initialised, and it is assigned only after a traced failure. | `max_backtracks = 2`; attempt 0 fails with an empty trace. | Initialise `backtrack_to = None` before the loop, as the other transforms do. | not executed | Scenarios.UnboundBacktrackRaises | Scenarios.UnboundCorrected |
