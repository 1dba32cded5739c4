/**
 * Values passed around a pipeline, the execution trace recorded by the
 * execution layer, and the blame rule that picks the stage to rewind to.
 */
module Traces {
  import opened Wrappers

  /** The Python values the engine passes along: messages, config entries, keyword arguments. */
  datatype Value =
    | NoneValue
    | BoolValue(b: bool)
    | IntValue(i: int)
    | RealValue(r: real)
    | StrValue(s: string)

  /** Keyword arguments, config dictionaries and the like. */
  type Kwargs = map<string, Value>

  /** A stable handle for a predictor (stage); replaces Python object identity. */
  type StageId = nat

  /** One `(predictor, inputs, outputs)` record of `dsp.settings.trace`. */
  datatype TraceEntry = TraceEntry(stage: StageId, inputs: Kwargs, outputs: Kwargs)

  /** The execution trace of the current attempt, in execution order. A `None` trace is empty. */
  type Trace = seq<TraceEntry>

  /**
   * The blame step of every backtracking transform: after a failed attempt,
   * `backtrack_to` becomes the stage of the last trace entry; when the trace
   * is empty it keeps its previous value.
   */
  function Blame(trace: Trace, previous: Option<StageId>): (r: Option<StageId>)
    ensures |trace| == 0 ==> r == previous
    ensures |trace| > 0 ==> r.Some? && exists j | 0 <= j < |trace| :: trace[j].stage == r.value
  {
    if |trace| > 0 then Some(trace[|trace| - 1].stage) else previous
  }

  /**
   * Only the most recent entry matters: blaming a trace that ends in `e`
   * gives `e`'s stage, whatever came before it and whatever was blamed before.
   */
  lemma BlameIsMostRecent(earlier: Trace, e: TraceEntry, previous: Option<StageId>)
    ensures Blame(earlier + [e], previous) == Some(e.stage)
  {
  }

  /**
   * Blaming a trace in two pieces is the same as blaming it at once: the
   * later piece decides, unless it is empty.
   */
  lemma BlameOfConcatenation(t: Trace, u: Trace, previous: Option<StageId>)
    ensures Blame(t + u, previous) == Blame(u, Blame(t, previous))
  {
    if |u| > 0 {
      assert (t + u)[|t + u| - 1] == u[|u| - 1];
    } else {
      assert t + u == t;
    }
  }
}
