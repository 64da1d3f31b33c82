/**
 * `GymLikeEnv` (torchrl/envs/gym_like.py): the adapter that drives a
 * gym-style simulator and turns what it returns into a keyed record.
 *
 * The step loop is a method of the `GymLikeEnv` class, proved against the
 * specification function `Run`, which mirrors the frame-skip loop one
 * sub-step at a time; `RunCharacterised` relates `Run` to an independent
 * description (the first sub-step that ends the loop and the sum of the
 * rewards up to it). The remaining operations are functions.
 */
module GymLike {
  import opened Wrappers
  import opened Simulators

  /** The errors the adapter raises (or lets through from the record container). */
  datatype Error =
    | UnknownEnv(envName: Arg, taskName: Arg, libname: string)  // RuntimeError from _check_kwargs
    | TypeError(typeName: string)                               // _output_transform on a non-tuple
    | KeyError(key: string)                                     // a missing record or info key
    | IndexError                                                // info[0] when there is no info
    | NotImplemented                                            // the base _set_seed

  /** The prefix that marks a field as the observation after the step. */
  const NextPrefix := "next_"

  /** The single field that holds an observation which is not a dict. */
  const NextObservationKey := "next_observation"

  // ---------------------------------------------------------------------------
  // Configuration: __init__ and _check_kwargs
  // ---------------------------------------------------------------------------

  /** `available_envs`: a list of environment names, or a dict from name to its tasks. */
  datatype Catalogue = EnvList(names: seq<Arg>) | EnvDict(tasks: map<Arg, seq<Arg>>)

  /** `name in available_envs`, for either shape of catalogue. */
  predicate Listed(envs: Catalogue, name: Arg)
  {
    match envs
    case EnvList(names) => name in names
    case EnvDict(tasks) => name in tasks
  }

  /** `kwargs.get("task_name", None)`. */
  function TaskArg(kwargs: Kwargs): Arg
  {
    if "task_name" in kwargs then kwargs["task_name"] else NoneArg
  }

  /**
   * `_check_kwargs`: fails exactly when an `env_name` is given and it is not
   * available, or the catalogue is keyed by name and the task is not one of
   * that name's tasks.
   */
  function CheckKwargs(envs: Catalogue, libname: string, kwargs: Kwargs): (r: Outcome<Error>)
    ensures "env_name" !in kwargs ==> r == Pass
    ensures "env_name" in kwargs ==>
      (r.Fail? <==>
        || !Listed(envs, kwargs["env_name"])
        || (envs.EnvDict? && TaskArg(kwargs) !in envs.tasks[kwargs["env_name"]]))
    ensures r.Fail? ==> r.error == UnknownEnv(kwargs["env_name"], TaskArg(kwargs), libname)
  {
    if "env_name" !in kwargs then Pass
    else
      var envName := kwargs["env_name"];
      var taskName := TaskArg(kwargs);
      if !(Listed(envs, envName) && (if envs.EnvDict? then taskName in envs.tasks[envName] else true))
      then Fail(UnknownEnv(envName, taskName, libname))
      else Pass
  }

  /** `__init__`: the keyword arguments handed on, with `env_name` and `task_name` set. */
  function InjectKwargs(envName: Arg, taskName: Arg, kwargs: Kwargs): (r: Kwargs)
    ensures r.Keys == kwargs.Keys + {"env_name", "task_name"}
    ensures r["env_name"] == envName && r["task_name"] == taskName
    ensures forall k :: k in kwargs && k != "env_name" && k != "task_name" ==> r[k] == kwargs[k]
  {
    kwargs["env_name" := envName]["task_name" := taskName]
  }

  /**
   * Construction as far as this file decides it: the injected keyword
   * arguments are checked. Because `__init__` always sets `env_name`, the check
   * always runs. Python never puts `env_name` or `task_name` in the free
   * keyword arguments (they bind to the named parameters); the model allows
   * them there and overrides them.
   */
  function Construct(envs: Catalogue, libname: string, envName: Arg, taskName: Arg, kwargs: Kwargs): (r: Outcome<Error>)
    ensures r.Fail? <==> !Listed(envs, envName) || (envs.EnvDict? && taskName !in envs.tasks[envName])
    ensures r.Fail? ==> r.error == UnknownEnv(envName, taskName, libname)
  {
    CheckKwargs(envs, libname, InjectKwargs(envName, taskName, kwargs))
  }

  // ---------------------------------------------------------------------------
  // Output shape: _output_transform and _read_obs
  // ---------------------------------------------------------------------------

  /** `_output_transform`: tuples pass unchanged; anything else raises a TypeError naming its type. */
  function OutputTransform<T>(raw: Raw<T>): (r: Result<T, Error>)
    ensures r.Success? <==> raw.Tuple?
    ensures raw.Tuple? ==> r.value == raw.elems
    ensures raw.NotTuple? ==> r.error == TypeError(raw.typeName)
  {
    match raw
    case Tuple(elems) => Success(elems)
    case NotTuple(typeName) => Failure(TypeError(typeName))
  }

  predicate HasNextPrefix(k: string)
  {
    |k| >= |NextPrefix| && k[..|NextPrefix|] == NextPrefix
  }

  /** The keys of a dict observation after renaming. */
  function Prefixed(keys: set<string>): set<string>
  {
    set k | k in keys :: NextPrefix + k
  }

  lemma PrefixInjective(a: string, b: string)
    ensures NextPrefix + a == NextPrefix + b ==> a == b
  {
    if NextPrefix + a == NextPrefix + b {
      assert a == (NextPrefix + a)[|NextPrefix|..];
      assert b == (NextPrefix + b)[|NextPrefix|..];
    }
  }

  /** Renaming keeps dict keys distinct, so no entry is lost. */
  lemma {:induction false} PrefixedSize(keys: set<string>)
    ensures |Prefixed(keys)| == |keys|
    decreases keys
  {
    if keys != {} {
      var x :| x in keys;
      var rest := keys - {x};
      PrefixedSize(rest);
      assert Prefixed(keys) == Prefixed(rest) + {NextPrefix + x};
      forall y | y in rest
        ensures NextPrefix + y != NextPrefix + x
      {
        PrefixInjective(x, y);
      }
      assert NextPrefix + x !in Prefixed(rest);
    }
  }

  /**
   * `_read_obs`: a dict observation has each key `k` renamed to `"next_" + k`
   * with its value unchanged and no entry lost; a `TensorDict` is kept as it is;
   * any other value becomes the single entry `"next_observation"`. Neither
   * renaming ever yields the `reward` or `done` key.
   */
  function ReadObs(obs: Observation): (r: Record)
    ensures obs.Dict? ==> |r| == |obs.fields|
    ensures obs.Dict? ==> forall k :: k in obs.fields ==> NextPrefix + k in r && r[NextPrefix + k] == obs.fields[k]
    ensures obs.Dict? ==> forall k :: k in r ==> HasNextPrefix(k) && k[|NextPrefix|..] in obs.fields
    ensures obs.TensorRecord? ==> r == obs.fields
    ensures obs.Array? ==> r == map[NextObservationKey := obs.value]
    ensures !obs.TensorRecord? ==> "reward" !in r && "done" !in r
  {
    match obs
    case Dict(fields) =>
      forall a: string, b: string ensures NextPrefix + a == NextPrefix + b ==> a == b {
        PrefixInjective(a, b);
      }
      var r := map k | k in fields :: NextPrefix + k := fields[k];
      assert r.Keys == Prefixed(fields.Keys);
      PrefixedSize(fields.Keys);
      assert forall k :: k in r ==> HasNextPrefix(k) && k[|NextPrefix|..] in fields by {
        forall k | k in r ensures HasNextPrefix(k) && k[|NextPrefix|..] in fields {
          var j :| j in fields && k == NextPrefix + j;
          assert k[..|NextPrefix|] == NextPrefix && k[|NextPrefix|..] == j;
        }
      }
      assert "reward"[0] != NextPrefix[0] && "done"[0] != NextPrefix[0];
      r
    case TensorRecord(fields) => fields
    case Array(value) => map[NextObservationKey := value]
  }

  // ---------------------------------------------------------------------------
  // The frame-skip loop of _step, as a specification
  // ---------------------------------------------------------------------------

  /** A `None` sub-step reward counts as 0. */
  function RewardOrZero(reward: Option<real>): real
  {
    if reward.None? then 0.0 else reward.value
  }

  /** What the frame-skip loop ends with: the number of simulator calls, and either its totals or the error raised. */
  datatype LoopEnd =
    | Ran(calls: nat, reward: real, last: StepTuple)
    | Raised(calls: nat, error: Error)

  /**
   * The loop from sub-step `i` on, with `acc` the reward summed so far; `w`
   * holds the outputs of the next `|w|` (= frame skip) simulator calls. It makes
   * at least one more call and never more than `|w|` in all.
   */
  function RunFrom(w: seq<Raw<StepTuple>>, i: nat, acc: real): (r: LoopEnd)
    requires i < |w|
    ensures i < r.calls <= |w|
    decreases |w| - i
  {
    match OutputTransform(w[i])
    case Failure(e) => Raised(i + 1, e)
    case Success(s) =>
      var acc' := acc + RewardOrZero(s.reward);
      if s.done || i + 1 == |w| then Ran(i + 1, acc', s)
      else RunFrom(w, i + 1, acc')
  }

  /** The whole loop: the reward starts at 0.0. */
  function Run(w: seq<Raw<StepTuple>>): (r: LoopEnd)
    requires |w| >= 1
    ensures 1 <= r.calls <= |w|
  {
    RunFrom(w, 0, 0.0)
  }

  /** A sub-step after which the loop goes on: a tuple that does not report `done`. */
  predicate Continues(x: Raw<StepTuple>)
  {
    x.Tuple? && !x.elems.done
  }

  /** Reference definition: the sum of the sub-step rewards, `None` counted as 0. */
  function Total(w: seq<Raw<StepTuple>>): real
  {
    if w == [] then 0.0
    else (if w[0].Tuple? then RewardOrZero(w[0].elems.reward) else 0.0) + Total(w[1..])
  }

  lemma {:induction false} RunFromCharacterised(w: seq<Raw<StepTuple>>, i: nat, acc: real, k: nat)
    requires i < k <= |w|
    requires forall j :: i <= j < k - 1 ==> Continues(w[j])
    requires k == |w| || !Continues(w[k - 1])
    ensures RunFrom(w, i, acc) ==
      if w[k - 1].NotTuple? then Raised(k, TypeError(w[k - 1].typeName))
      else Ran(k, acc + Total(w[i..k]), w[k - 1].elems)
    decreases k - i
  {
    assert w[i..k][1..] == w[i + 1..k];
    if i < k - 1 {
      var acc' := acc + RewardOrZero(w[i].elems.reward);
      RunFromCharacterised(w, i + 1, acc', k);
    } else {
      assert w[i + 1..k] == [];
    }
  }

  /**
   * If sub-step `k` is the first that reports `done` or is not a tuple (or
   * `k` is the frame skip), the loop makes exactly `k` simulator calls; it
   * returns the sum of the first `k` rewards and the output of sub-step `k`,
   * or the TypeError that sub-step `k` raised.
   */
  lemma RunCharacterised(w: seq<Raw<StepTuple>>, k: nat)
    requires 1 <= k <= |w|
    requires forall j :: 0 <= j < k - 1 ==> Continues(w[j])
    requires k == |w| || !Continues(w[k - 1])
    ensures Run(w) ==
      if w[k - 1].NotTuple? then Raised(k, TypeError(w[k - 1].typeName))
      else Ran(k, Total(w[..k]), w[k - 1].elems)
  {
    RunFromCharacterised(w, 0, 0.0, k);
    assert w[0..k] == w[..k];
  }

  lemma {:induction false} RunFromStops(w: seq<Raw<StepTuple>>, i: nat, acc: real)
    requires i < |w|
    ensures var k := RunFrom(w, i, acc).calls;
      && (forall j :: i <= j < k - 1 ==> Continues(w[j]))
      && (k == |w| || !Continues(w[k - 1]))
    decreases |w| - i
  {
    if Continues(w[i]) && i + 1 < |w| {
      RunFromStops(w, i + 1, acc + RewardOrZero(w[i].elems.reward));
    }
  }

  /**
   * Conversely, when the loop makes `k` calls, the first `k - 1` sub-steps
   * went on and sub-step `k` reported `done`, was not a tuple, or was the
   * last one allowed.
   */
  lemma RunStops(w: seq<Raw<StepTuple>>)
    requires |w| >= 1
    ensures var k := Run(w).calls;
      && (forall j :: 0 <= j < k - 1 ==> Continues(w[j]))
      && (k == |w| || !Continues(w[k - 1]))
  {
    RunFromStops(w, 0, 0.0);
  }

  /** With no sub-step reporting `done`, all N sub-steps run and every reward is summed. */
  lemma RunWithoutDone(w: seq<Raw<StepTuple>>)
    requires |w| >= 1
    requires forall j :: 0 <= j < |w| ==> w[j].Tuple? && !w[j].elems.done
    ensures Run(w) == Ran(|w|, Total(w), w[|w| - 1].elems)
  {
    RunCharacterised(w, |w|);
    assert w[..|w|] == w;
  }

  lemma {:induction false} SilentRunFrom(w: seq<Raw<StepTuple>>, i: nat, acc: real)
    requires i < |w|
    requires forall j :: i <= j < RunFrom(w, i, acc).calls && w[j].Tuple? ==> w[j].elems.reward.None?
    ensures RunFrom(w, i, acc).Ran? ==> RunFrom(w, i, acc).reward == acc
    decreases |w| - i
  {
    if w[i].Tuple? && !w[i].elems.done && i + 1 < |w| {
      SilentRunFrom(w, i + 1, acc);
    }
  }

  /**
   * When none of the sub-steps actually run reports a reward, the result is 0.0: the accumulator
   * starts at 0.0 and only has numbers added, so it is never `None` and the
   * NaN substitution after the loop cannot happen.
   */
  lemma SilentRun(w: seq<Raw<StepTuple>>)
    requires |w| >= 1
    requires forall j :: 0 <= j < Run(w).calls && w[j].Tuple? ==> w[j].elems.reward.None?
    ensures Run(w).Ran? ==> Run(w).reward == 0.0
  {
    SilentRunFrom(w, 0, 0.0);
  }

  /** The outputs of the next `n` simulator calls, the first being call number `from`. */
  function Window(script: nat -> Raw<StepTuple>, from: nat, n: nat): seq<Raw<StepTuple>>
  {
    seq(n, j requires 0 <= j < n => script(from + j))
  }

  // ---------------------------------------------------------------------------
  // The record that _step builds
  // ---------------------------------------------------------------------------

  /** The observation fields with `reward` and `done` set on top. */
  function StepRecord(obs: Observation, reward: real, done: bool): Record
  {
    ReadObs(obs)["reward" := Number(reward)]["done" := Flag(done)]
  }

  /** The `info_keys` loop: each key is copied from `info[0]`, in order. */
  function WithInfo(out: Record, info: seq<Info>, keys: seq<string>): Result<Record, Error>
    decreases |keys|
  {
    if keys == [] then Success(out)
    else if |info| == 0 then Failure(IndexError)
    else if keys[0] !in info[0] then Failure(KeyError(keys[0]))
    else WithInfo(out[keys[0] := info[0][keys[0]]], info, keys[1..])
  }

  /**
   * Copying the info keys succeeds exactly when there are none or `info[0]`
   * holds all of them; it then adds those keys with `info[0]`'s values and
   * leaves every other field alone. It fails with IndexError when there is no
   * info element, and otherwise with a KeyError naming the first missing key.
   */
  lemma {:induction false} WithInfoContents(out: Record, info: seq<Info>, keys: seq<string>)
    ensures var r := WithInfo(out, info, keys);
      && (r.Success? <==> keys == [] || (|info| > 0 && forall j :: 0 <= j < |keys| ==> keys[j] in info[0]))
      && (r.Success? ==> r.value.Keys == out.Keys + (set k | k in keys))
      && (r.Success? ==> forall k :: k in r.value ==> r.value[k] == if k in keys then info[0][k] else out[k])
      && (keys != [] && |info| == 0 ==> r == Failure(IndexError))
      && (r.Failure? && |info| > 0 ==>
            exists j :: 0 <= j < |keys| && r.error == KeyError(keys[j]) && keys[j] !in info[0]
                        && forall i :: 0 <= i < j ==> keys[i] in info[0])
    decreases |keys|
  {
    if keys != [] && |info| > 0 && keys[0] in info[0] {
      var out' := out[keys[0] := info[0][keys[0]]];
      WithInfoContents(out', info, keys[1..]);
      var r := WithInfo(out, info, keys);
      assert r == WithInfo(out', info, keys[1..]);
      assert forall j :: 1 <= j < |keys| ==> keys[j] == keys[1..][j - 1];
      assert (set k | k in keys) == {keys[0]} + (set k | k in keys[1..]);
      if r.Failure? {
        var j :| 0 <= j < |keys[1..]| && r.error == KeyError(keys[1..][j]) && keys[1..][j] !in info[0]
                 && forall i :: 0 <= i < j ==> keys[1..][i] in info[0];
        assert forall i :: 0 <= i < j + 1 ==> keys[i] in info[0] by {
          forall i | 0 <= i < j + 1 ensures keys[i] in info[0] {
            if i > 0 { assert keys[i] == keys[1..][i - 1]; }
          }
        }
      }
    }
  }

  /**
   * The step output holds the observation fields, `reward`, `done` and one
   * field per info key copied from `info[0]`; a later write wins, so an info
   * key overrides `reward` or `done` of the same name.
   */
  lemma StepOutputFields(obs: Observation, reward: real, done: bool, info: seq<Info>, keys: seq<string>)
    ensures var r := WithInfo(StepRecord(obs, reward, done), info, keys);
      && (r.Success? <==> keys == [] || (|info| > 0 && forall j :: 0 <= j < |keys| ==> keys[j] in info[0]))
      && (r.Success? ==> r.value.Keys == ReadObs(obs).Keys + {"reward", "done"} + (set k | k in keys))
      && (r.Success? ==> forall k :: k in r.value ==>
            r.value[k] == if k in keys then info[0][k]
                          else if k == "done" then Flag(done)
                          else if k == "reward" then Number(reward)
                          else ReadObs(obs)[k])
  {
    var base := StepRecord(obs, reward, done);
    assert base.Keys == ReadObs(obs).Keys + {"reward", "done"};
    assert forall k :: k in base ==>
      base[k] == if k == "done" then Flag(done) else if k == "reward" then Number(reward) else ReadObs(obs)[k];
    WithInfoContents(base, info, keys);
  }

  /** The record `_reset` returns for a fresh observation. */
  function ResetRecord(obs: Observation): (r: Record)
    ensures r.Keys == ReadObs(obs).Keys + {"done"}
    ensures r["done"] == Flag(false)
    ensures forall k :: k in r && k != "done" ==> r[k] == ReadObs(obs)[k]
    ensures "reward" in r <==> obs.TensorRecord? && "reward" in obs.fields
  {
    ReadObs(obs)["done" := Flag(false)]
  }

  /**
   * The `info_keys` loop of `_step`: copies each configured key from `info[0]`
   * into the record, stopping at the first IndexError or KeyError.
   */
  method CopyInfo(out: Record, info: seq<Info>, keys: seq<string>) returns (r: Result<Record, Error>)
    ensures r == WithInfo(out, info, keys)
  {
    var record := out;
    var i := 0;
    while i < |keys|
      invariant 0 <= i <= |keys|
      invariant WithInfo(record, info, keys[i..]) == WithInfo(out, info, keys)
    {
      assert keys[i..][1..] == keys[i + 1..];
      if |info| == 0 {
        return Failure(IndexError);
      }
      var key := keys[i];
      if key !in info[0] {
        return Failure(KeyError(key));
      }
      record := record[key := info[0][key]];
      i := i + 1;
    }
    r := Success(record);
  }

  // ---------------------------------------------------------------------------
  // Seeding: set_seed and _set_seed
  // ---------------------------------------------------------------------------

  /** Whether `_set_seed` is the base one, which raises, or a subclass's, which returns. */
  datatype SeedHook = BaseHook | OverriddenHook

  /** The external seeding calls `set_seed` makes, in order. */
  datatype SeedCall = ManualSeed(seed: int) | SetSeedHook(hookSeed: Option<int>)

  datatype SeedTrace = SeedTrace(calls: seq<SeedCall>, result: Result<Option<int>, Error>)

  /**
   * `set_seed`: a given seed is applied globally, then `_set_seed` is called
   * with the seed (or `None`); with a seed the result is the derived seed
   * `derive(seed)`, without one it is `None`. With the base `_set_seed` the
   * call raises NotImplementedError after the global seeding.
   */
  function SetSeed(seed: Option<int>, hook: SeedHook, derive: int -> int): (t: SeedTrace)
    ensures seed.None? ==> t.calls == [SetSeedHook(None)]
    ensures seed.Some? ==> t.calls == [ManualSeed(seed.value), SetSeedHook(seed)]
    ensures hook.BaseHook? ==> t.result == Failure(NotImplemented)
    ensures hook.OverriddenHook? && seed.None? ==> t.result == Success(None)
    ensures hook.OverriddenHook? && seed.Some? ==> t.result == Success(Some(derive(seed.value)))
  {
    var global := if seed.Some? then [ManualSeed(seed.value)] else [];
    var calls := global + [SetSeedHook(seed)];
    match hook
    case BaseHook => SeedTrace(calls, Failure(NotImplemented))
    case OverriddenHook =>
      SeedTrace(calls, Success(if seed.Some? then Some(derive(seed.value)) else seed))
  }

  // ---------------------------------------------------------------------------
  // The adapter's state: _step and _reset
  // ---------------------------------------------------------------------------

  class GymLikeEnv {
    /** The wrapped simulator, `self._env`. */
    const sim: Simulator
    /** `wrapper_frame_skip`. */
    const frameSkip: nat
    /** `info_keys`. */
    const infoKeys: seq<string>
    /** `step_tensordict`, which lives outside this file. */
    const stepRecord: Record -> Record
    /** `self.is_done`, written by `_step`. */
    var isDone: bool
    /** `self._is_done`, written by `_reset`. */
    var isDoneAtReset: bool
    /** `self.current_tensordict`, written by `_step`. */
    var currentRecord: Record

    constructor (sim: Simulator, frameSkip: nat, infoKeys: seq<string>, stepRecord: Record -> Record)
      ensures this.sim == sim && this.frameSkip == frameSkip
      ensures this.infoKeys == infoKeys && this.stepRecord == stepRecord
      ensures !isDone && !isDoneAtReset && currentRecord == map[]
    {
      this.sim := sim;
      this.frameSkip := frameSkip;
      this.infoKeys := infoKeys;
      this.stepRecord := stepRecord;
      isDone := false;
      isDoneAtReset := false;
      currentRecord := map[];
    }

    /** The outputs of the simulator's next `frameSkip` step calls. */
    ghost function Pending(): seq<Raw<StepTuple>>
      reads this, sim
    {
      Window(sim.script, |sim.actions|, frameSkip)
    }

    /**
     * `_step`: runs the frame-skip loop on the input's action, then builds the
     * output record from the last sub-step actually run. `isDone` is written
     * before the info keys are copied, so a missing info key leaves it updated
     * while `currentRecord` keeps its old value.
     */
    method Step(input: Record) returns (r: Result<Record, Error>)
      requires frameSkip >= 1
      modifies this, sim
      ensures sim.resets == old(sim.resets) && isDoneAtReset == old(isDoneAtReset)
      ensures "action" !in input ==>
        && r == Failure(KeyError("action"))
        && sim.actions == old(sim.actions)
        && isDone == old(isDone) && currentRecord == old(currentRecord)
      ensures "action" in input ==>
        var run := Run(old(Pending()));
        && sim.actions == old(sim.actions) + seq(run.calls, _ => input["action"])
        && (run.Raised? ==>
              r == Failure(run.error) && isDone == old(isDone) && currentRecord == old(currentRecord))
        && (run.Ran? ==>
              && isDone == run.last.done
              && r == WithInfo(StepRecord(run.last.obs, run.reward, run.last.done), run.last.info, infoKeys)
              && currentRecord == if r.Success? then stepRecord(r.value) else old(currentRecord))
    {
      if "action" !in input {
        return Failure(KeyError("action"));
      }
      var action := input["action"];
      ghost var w := Pending();
      ghost var before := sim.actions;

      // Python's `reward` variable, which the code tests against None after the loop.
      var reward: Option<real> := Some(0.0);
      var last: Option<StepTuple> := None;
      var calls := 0;
      while calls < frameSkip
        invariant calls <= frameSkip
        invariant sim.actions == before + seq(calls, _ => action)
        invariant sim.resets == old(sim.resets)
        invariant reward.Some?
        invariant calls < frameSkip ==> RunFrom(w, calls, reward.value) == Run(w)
        invariant calls == frameSkip ==> last.Some? && Run(w) == Ran(calls, reward.value, last.value)
        modifies sim
      {
        var out := sim.Step(action);
        assert out == w[calls];
        var transformed := OutputTransform(out);
        if transformed.Failure? {
          return Failure(transformed.error);
        }
        var s := transformed.value;
        reward := Some(reward.value + RewardOrZero(s.reward));
        last := Some(s);
        calls := calls + 1;
        if s.done {
          assert Run(w) == Ran(calls, reward.value, s);
          break;
        }
      }
      assert last.Some? && Run(w) == Ran(calls, reward.value, last.value);
      var s := last.value;
      var obsFields := ReadObs(s.obs);
      var rewardValue := if reward.None? then NaN else Number(reward.value);
      isDone := s.done;
      var out := obsFields["reward" := rewardValue]["done" := Flag(s.done)];
      r := CopyInfo(out, s.info, infoKeys);
      if r.Success? {
        currentRecord := stepRecord(r.value);
      }
    }

    /**
     * `_reset`: the simulator's reset observation, wrapped in a one-element
     * tuple so that `_output_transform` always accepts it, becomes the record's
     * fields, with `done` set to false and no `reward`.
     */
    method Reset(kwargs: Kwargs) returns (r: Record)
      modifies this, sim
      ensures sim.resets == old(sim.resets) + [kwargs] && sim.actions == old(sim.actions)
      ensures r == ResetRecord(sim.resetScript(|old(sim.resets)|))
      ensures !isDoneAtReset
      ensures isDone == old(isDone) && currentRecord == old(currentRecord)
    {
      var raw := sim.Reset(kwargs);
      var obs := OutputTransform(Tuple(raw)).value;
      isDoneAtReset := false;
      r := ReadObs(obs)["done" := Flag(isDoneAtReset)];
    }
  }
}
