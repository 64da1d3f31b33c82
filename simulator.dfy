/**
 * The gym-style simulator that a `GymLikeEnv` wraps, and the values it
 * exchanges with the adapter. The simulator itself is external: here it is a
 * scripted object that answers its n-th `step` call with the n-th entry of a
 * fixed script and records every action and every reset configuration it is
 * given, so that contracts can count calls.
 */
module Simulators {
  import opened Wrappers

  /** A tensor-like value; the model never looks inside arrays. */
  datatype Value =
    | Number(x: real)
    | NaN
    | Flag(b: bool)
    | Tensor(elems: seq<real>)

  /** A keyed record of values: a `TensorDict`, or a plain `dict` of arrays. */
  type Record = map<string, Value>

  /** One element of the simulator's `info` output, indexed by key. */
  type Info = map<string, Value>

  /** A keyword argument value as passed through `**kwargs`. */
  datatype Arg = Str(s: string) | NoneArg | Int(n: int)

  type Kwargs = map<string, Arg>

  /** What a simulator may return as an observation. */
  datatype Observation =
    | Dict(fields: map<string, Value>)          // a Python `dict`
    | TensorRecord(fields: map<string, Value>)  // a `TensorDict`, which is not a `dict`
    | Array(value: Value)                       // any other value: an array or tensor

  /** The tuple `(obs, reward, done, *info)` that `env.step` returns. */
  datatype StepTuple = StepTuple(obs: Observation, reward: Option<real>, done: bool, info: seq<Info>)

  /** A raw simulator output: either a tuple holding `elems`, or some other Python value. */
  datatype Raw<+T> = Tuple(elems: T) | NotTuple(typeName: string)

  /** The external simulator (`self._env`). */
  class Simulator {
    /** The answer to the n-th `step` call. */
    const script: nat -> Raw<StepTuple>
    /** The answer to the n-th `reset` call. */
    const resetScript: nat -> Observation
    /** Every action passed to `step`, in order. */
    var actions: seq<Value>
    /** Every keyword configuration passed to `reset`, in order. */
    var resets: seq<Kwargs>

    constructor (script: nat -> Raw<StepTuple>, resetScript: nat -> Observation)
      ensures this.script == script && this.resetScript == resetScript
      ensures actions == [] && resets == []
    {
      this.script := script;
      this.resetScript := resetScript;
      actions := [];
      resets := [];
    }

    method Step(action: Value) returns (out: Raw<StepTuple>)
      modifies this
      ensures actions == old(actions) + [action] && resets == old(resets)
      ensures out == script(|old(actions)|)
    {
      out := script(|actions|);
      actions := actions + [action];
    }

    method Reset(kwargs: Kwargs) returns (obs: Observation)
      modifies this
      ensures resets == old(resets) + [kwargs] && actions == old(actions)
      ensures obs == resetScript(|old(resets)|)
    {
      obs := resetScript(|resets|);
      resets := resets + [kwargs];
    }
  }
}
