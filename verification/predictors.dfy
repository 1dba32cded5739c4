/**
 * Predictors as records in an arena of stable handles: a config dictionary,
 * an extended signature, and a `forward` entry point that may be wrapped in
 * layers which fill in default keyword arguments.
 */
module Predictors {
  import opened Wrappers
  import opened Traces
  import opened Signatures

  /**
   * A predictor's `forward`: its own method, or a `new_forward` closure that
   * sets defaults and then calls the forward it wrapped.
   */
  datatype Forward =
    | Base(own: nat)
    | WithDefaults(defaults: seq<(string, Value)>, inner: Forward)

  /** What finally reaches a predictor's own method: which method, with which kwargs. */
  datatype InnerCall = InnerCall(own: nat, kwargs: Kwargs)

  /** The number of wrapper layers around the predictor's own method. */
  function Depth(f: Forward): nat
  {
    match f
    case Base(_) => 0
    case WithDefaults(_, inner) => 1 + Depth(inner)
  }

  /** The forward left after taking off `n` wrapper layers. */
  function Unwrap(f: Forward, n: nat): Forward
  {
    if n == 0 then f
    else match f
      case Base(_) => f
      case WithDefaults(_, inner) => Unwrap(inner, n - 1)
  }

  /** The keys a list of defaults provides. */
  function DefaultKeys(defaults: seq<(string, Value)>): set<string>
  {
    set j | 0 <= j < |defaults| :: defaults[j].0
  }

  /**
   * The loop of `new_forward`: `kwargs.setdefault(arg, value)` for each
   * default in order.
   */
  function SetDefaults(kwargs: Kwargs, defaults: seq<(string, Value)>): (r: Kwargs)
    ensures r.Keys == kwargs.Keys + DefaultKeys(defaults)
    ensures forall key | key in kwargs :: r[key] == kwargs[key]
    decreases |defaults|
  {
    if defaults == [] then kwargs
    else
      var (arg, value) := defaults[0];
      var r := SetDefaults(if arg in kwargs then kwargs else kwargs[arg := value], defaults[1..]);
      assert DefaultKeys(defaults) == {arg} + DefaultKeys(defaults[1..]) by {
        assert forall j | 1 <= j < |defaults| :: defaults[j] == defaults[1..][j - 1];
        assert forall j | 0 <= j < |defaults[1..]| :: defaults[1..][j] == defaults[j + 1];
      }
      r
  }

  /** A key the caller omitted takes the first default given for it. */
  lemma {:induction false} SetDefaultsFirstWins(kwargs: Kwargs, defaults: seq<(string, Value)>, j: nat)
    requires j < |defaults| && defaults[j].0 !in kwargs
    requires forall i | 0 <= i < j :: defaults[i].0 != defaults[j].0
    ensures SetDefaults(kwargs, defaults)[defaults[j].0] == defaults[j].1
    decreases j
  {
    var (arg, value) := defaults[0];
    var kwargs' := if arg in kwargs then kwargs else kwargs[arg := value];
    if j > 0 {
      SetDefaultsFirstWins(kwargs', defaults[1..], j - 1);
    }
  }

  /** Calling a forward: each wrapper layer fills its defaults, then delegates inward. */
  function Invoke(f: Forward, kwargs: Kwargs): (c: InnerCall)
    ensures forall key | key in kwargs :: key in c.kwargs && c.kwargs[key] == kwargs[key]
    decreases f
  {
    match f
    case Base(m) => InnerCall(m, kwargs)
    case WithDefaults(defaults, inner) => Invoke(inner, SetDefaults(kwargs, defaults))
  }

  /**
   * `_wrap_forward_with_set_fields`: a wrapper that fills in `defaults` and
   * otherwise behaves like the forward it wraps.
   */
  function WrapForward(f: Forward, defaults: seq<(string, Value)>): (w: Forward)
    ensures w != f
    ensures Depth(w) == Depth(f) + 1 && Unwrap(w, 1) == f
  {
    WithDefaults(defaults, f)
  }

  /**
   * `setdefault` semantics for a single default: the caller's value wins;
   * otherwise the default is filled in; the call is then delegated unchanged.
   */
  lemma WrappedForwardDefaults(f: Forward, key: string, value: Value, kwargs: Kwargs)
    ensures Invoke(WrapForward(f, [(key, value)]), kwargs)
            == Invoke(f, if key in kwargs then kwargs else kwargs[key := value])
  {
    var kwargs' := if key in kwargs then kwargs else kwargs[key := value];
    assert [(key, value)][1..] == [];
    assert SetDefaults(kwargs, [(key, value)]) == SetDefaults(kwargs', []);
  }

  /** A predictor: its config dictionary, extended signature and forward entry point. */
  datatype Predictor = Predictor(config: Kwargs, signature: Signature, forward: Forward)

  /** All predictors of a program, by stable handle. */
  type Arena = map<StageId, Predictor>

  const TemperatureKey: string := "temperature"

  /**
   * `update_config(temperature=t)` on the predictor `target` names; no other
   * predictor, and nothing but that predictor's temperature, changes. A
   * missing target or a handle outside the arena leaves everything as it was.
   */
  function SetTemperature(arena: Arena, target: Option<StageId>, t: real): (r: Arena)
    ensures r.Keys == arena.Keys
    ensures forall h | h in arena && target != Some(h) :: r[h] == arena[h]
    ensures forall h | h in arena && target == Some(h) ::
              && r[h].signature == arena[h].signature
              && r[h].forward == arena[h].forward
              && r[h].config.Keys == arena[h].config.Keys + {TemperatureKey}
              && r[h].config[TemperatureKey] == RealValue(t)
              && (forall key | key in arena[h].config && key != TemperatureKey ::
                    r[h].config[key] == arena[h].config[key])
  {
    match target
    case Some(h) =>
      if h in arena then
        arena[h := arena[h].(config := arena[h].config[TemperatureKey := RealValue(t)])]
      else arena
    case None => arena
  }

  /** Two predictors that differ at most in their config's temperature. */
  predicate SameButTemperature(p: Predictor, q: Predictor)
  {
    && p.signature == q.signature
    && p.forward == q.forward
    && p.config - {TemperatureKey} == q.config - {TemperatureKey}
  }

  /** A temperature update keeps every predictor the same but for its temperature. */
  lemma SetTemperatureOnlyTemperature(arena: Arena, target: Option<StageId>, t: real, h: StageId)
    requires h in arena
    ensures SameButTemperature(SetTemperature(arena, target, t)[h], arena[h])
  {
    var r := SetTemperature(arena, target, t);
    if target == Some(h) {
      var c, c' := arena[h].config, r[h].config;
      assert c' - {TemperatureKey} == c - {TemperatureKey} by {
        assert (c' - {TemperatureKey}).Keys == (c - {TemperatureKey}).Keys;
      }
    }
  }
}
