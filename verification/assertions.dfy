/**
 * The eager `Assert` check and the exceptions the retry engine sees.
 */
module Assertions {
  import opened Wrappers
  import opened Traces

  /** `DSPyAssertionError`: the message of the failed check and the trace at raise time. */
  datatype AssertionError = AssertionError(msg: Value, state: Trace)

  /** The exceptions a pipeline attempt can raise. Only `AssertionFailed` is ever caught. */
  datatype Exception =
    | AssertionFailed(error: AssertionError)
    | ValueError(text: string)
    | UnboundLocalError(name: string)
    | OtherError(name: string)

  /** The user's check: positional and keyword arguments to any Python value. */
  type AssertFun = (seq<Value>, Kwargs) -> Value

  /** A constructed `Assert`: its function, its arguments without `msg`, and its message. */
  datatype Assert = Assert(fun: AssertFun, args: seq<Value>, kwargs: Kwargs, msg: Value)

  const MsgKey: string := "msg"

  const NotBoolText: string := "Assertion function should always return [bool]"

  /** The message an `Assert` reports: the `msg` keyword argument, or the empty string. */
  function MessageOf(kwargs: Kwargs): Value
  {
    if MsgKey in kwargs then kwargs[MsgKey] else StrValue("")
  }

  /**
   * `Assert.__call__`: runs the check once against the trace visible now.
   * `True` passes, `False` raises `DSPyAssertionError`, anything else raises `ValueError`.
   */
  function Call(a: Assert, trace: Trace): (r: Result<bool, Exception>)
    ensures r.Success? <==> a.fun(a.args, a.kwargs) == BoolValue(true)
    ensures r.Success? ==> r.value
    ensures r.Failure? && r.error.AssertionFailed?
            <==> a.fun(a.args, a.kwargs) == BoolValue(false)
    ensures r.Failure? && r.error.AssertionFailed?
            ==> r.error.error == AssertionError(a.msg, trace)
    ensures r.Failure? && r.error.ValueError? <==> !a.fun(a.args, a.kwargs).BoolValue?
  {
    match a.fun(a.args, a.kwargs)
    case BoolValue(b) =>
      if b then Success(true) else Failure(AssertionFailed(AssertionError(a.msg, trace)))
    case _ => Failure(ValueError(NotBoolText))
  }

  /**
   * `Assert.__init__`: takes `msg` out of the keyword arguments, then
   * evaluates the check immediately; a failing check makes construction raise.
   */
  function Construct(fun: AssertFun, args: seq<Value>, kwargs: Kwargs, trace: Trace)
    : (r: Result<Assert, Exception>)
    ensures r.Success? <==> fun(args, kwargs - {MsgKey}) == BoolValue(true)
    ensures r.Success? ==> && r.value.args == args
                           && MsgKey !in r.value.kwargs
                           && r.value.kwargs == kwargs - {MsgKey}
                           && r.value.msg == MessageOf(kwargs)
    ensures r.Failure? ==> r.error.AssertionFailed? || r.error.ValueError?
    ensures r.Failure? && r.error.AssertionFailed?
            <==> fun(args, kwargs - {MsgKey}) == BoolValue(false)
    ensures r.Failure? && r.error.AssertionFailed?
            ==> r.error.error == AssertionError(MessageOf(kwargs), trace)
    ensures r.Failure? && r.error.ValueError? <==> !fun(args, kwargs - {MsgKey}).BoolValue?
  {
    var a := Assert(fun, args, kwargs - {MsgKey}, MessageOf(kwargs));
    match Call(a, trace)
    case Success(_) => Success(a)
    case Failure(e) => Failure(e)
  }

  /**
   * Once constructed, an `Assert` passes every later call, whatever the trace:
   * the check is a function of its stored arguments only.
   */
  lemma ConstructedAssertPasses(fun: AssertFun, args: seq<Value>, kwargs: Kwargs,
                                trace: Trace, later: Trace)
    requires Construct(fun, args, kwargs, trace).Success?
    ensures Call(Construct(fun, args, kwargs, trace).value, later) == Success(true)
  {
  }
}
