# GymLikeEnv step/reset adapter

This project models `GymLikeEnv`, torchrl's adapter for gym-style simulators
(torchrl/envs/gym_like.py). The adapter does three things:

- It validates the environment and task names at construction.
- It resets the simulator and turns the observation into a keyed record with `done` = false.
- It steps the simulator up to `wrapper_frame_skip` times per call, stopping at the first `done`. It sums the rewards, counting a `None` reward as 0. It builds the output record from the last sub-step's observation, the summed `reward`, `done` and the configured `info_keys`.

Files:

- `wrappers.dfy`: `Option`, `Result` and `Outcome`. These model `None` and raised exceptions.
- `simulator.dfy`: the values the adapter exchanges with the simulator, and the external simulator itself. The simulator is a scripted object. Its n-th `step` call returns the n-th entry of a fixed script. It records every action it receives, so contracts can count calls.
- `gym_like.dfy`: the adapter.
  - `GymLikeEnv` is a class. It holds `isDone` (`self.is_done`), `isDoneAtReset` (`self._is_done`) and `currentRecord` (`self.current_tensordict`).
  - `Step` and `Reset` are methods. `Step` contains the frame-skip loop and is proved against the specification function `Run`.
  - `RunCharacterised` and `RunStops` relate `Run` to a separate description of the loop. That description uses the first sub-step that ends the loop and the sum `Total` of the rewards up to that sub-step.
  - The remaining operations (`_read_obs`, `_output_transform`, `_check_kwargs`, `set_seed`) are functions.

Where the docstring and the code disagree, the model follows the code:

- Keys of a dict observation become `"next_" + key` (line 119), not `"next_observation_{key}"` as the docstring at lines 30-32 says.
- The info output is not discarded, as the docstring at line 28 says. Each `info_keys` entry is copied from `info[0]` (lines 87-89).
- Lines 76-77 would report NaN when the reward is `None`. That branch is unreachable, because the accumulator starts at 0.0 and only has numbers added. When no sub-step reports a reward, the step reports 0.0. `Step` keeps the accumulator as an `Option` so that this dead branch stays in the model, and `SilentRun` states the 0.0 result.

## Model

| member | source | states |
|---|---|---|
| `GymLike.CheckKwargs` | torchrl/envs/gym_like.py:42-56 | Passes when `env_name` is absent. Otherwise it raises exactly when the name is not available, or the catalogue is a dict and the task is not among that name's tasks. The error names the environment, the task (`None` when absent) and the library. |
| `GymLike.InjectKwargs` | torchrl/envs/gym_like.py:37-40 | The forwarded kwargs are the caller's, with `env_name` and `task_name` set to the constructor arguments. Every other key is unchanged. |
| `GymLike.Construct` | torchrl/envs/gym_like.py:37-56 | Because `__init__` always sets `env_name`, construction fails exactly when the given environment or task is unknown. Python cannot put `env_name` or `task_name` in the free kwargs, because they bind to the named parameters. The model allows those keys and overrides them. |
| `GymLike.OutputTransform` | torchrl/envs/gym_like.py:125-131 | Tuples pass unchanged. Any other value raises a TypeError naming its type. |
| `GymLike.ReadObs` | torchrl/envs/gym_like.py:117-123 | A dict maps each key k to `"next_" + k` with the value unchanged and the same number of entries. Every produced key carries the prefix. A TensorDict is kept as it is. Any other value gives exactly `{"next_observation": value}`. For dict and array observations, `reward` and `done` are never produced. |
| `GymLike.PrefixedSize` | torchrl/envs/gym_like.py:119 | Renaming with the `"next_"` prefix keeps keys distinct, so the number of keys is preserved. |
| `GymLike.RunFrom` | torchrl/envs/gym_like.py:64-72 | From sub-step i on, the loop makes at least one more simulator call and never more than the frame skip in total. |
| `GymLike.Run` | torchrl/envs/gym_like.py:63-72 | One step makes between 1 and frame-skip simulator calls. |
| `GymLike.RunCharacterised` | torchrl/envs/gym_like.py:63-74 | Let sub-step k be the first that reports `done` or is not a tuple (or k is the frame skip). Then exactly k calls are made. The loop returns the sum of the first k rewards (`None` as 0) and sub-step k's observation, `done` and info, or sub-step k's TypeError. |
| `GymLike.RunStops` | torchrl/envs/gym_like.py:64-72 | Conversely, if k calls are made, the first k-1 sub-steps continued and sub-step k ended the loop. |
| `GymLike.RunWithoutDone` | torchrl/envs/gym_like.py:63-72 | If no sub-step reports `done`, all N sub-steps run. The reward is the sum of all N rewards and the output is the N-th sub-step's. |
| `GymLike.SilentRun` | torchrl/envs/gym_like.py:63-77 | If none of the sub-steps actually run reports a reward, the step's reward is 0.0, never NaN. Sub-steps after the first `done` are never run, and their rewards do not matter. |
| `GymLike.WithInfoContents` | torchrl/envs/gym_like.py:87-89 | `WithInfo` is the `info_keys` loop as a function. Copying info keys succeeds exactly when there are none or `info[0]` holds all of them. On success it adds exactly those keys with `info[0]`'s values and leaves every other field unchanged. With no info element it raises IndexError. Otherwise it raises KeyError naming the first missing key. |
| `GymLike.StepOutputFields` | torchrl/envs/gym_like.py:82-89 | `StepRecord` is the observation fields with `reward` and `done` set on top, and `WithInfo` then adds the info keys. The step record holds the observation fields, `reward`, `done` and the info keys, and no other keys. Each value comes from the last write: an info key overrides a field of the same name, and `reward` and `done` override observation fields of those names. |
| `GymLike.CopyInfo` | torchrl/envs/gym_like.py:87-89 | The `info_keys` loop computes exactly the `WithInfo` result, including which error stops it. |
| `GymLike.ResetRecord` | torchrl/envs/gym_like.py:108-114 | The reset record is the observation fields plus `done` = false. It has a `reward` key only if a TensorDict observation brought one. |
| `GymLike.SetSeed` | torchrl/envs/gym_like.py:94-104 | With a seed, global seeding is applied before `_set_seed(seed)`, and the result is the derived seed. Without a seed, only `_set_seed(None)` is called and the result is `None`. The base `_set_seed` always raises NotImplementedError. |
| `GymLike.GymLikeEnv.Step` | torchrl/envs/gym_like.py:59-92 | The simulator receives the input's action exactly `Run(...).calls` times. On a TypeError the adapter state is unchanged. Otherwise `isDone` becomes the last sub-step's `done`, and the result is the record `StepOutputFields` describes. `currentRecord` is updated only when the info keys were all found. A missing `action` is a KeyError before any call. |
| `GymLike.GymLikeEnv.Reset` | torchrl/envs/gym_like.py:106-115 | The simulator is reset once with the given kwargs. The result is `ResetRecord` of its observation, and `isDoneAtReset` becomes false. The wrapped 1-tuple never trips the TypeError. |

## Left out

- `action_spec.to_numpy`, `observation_spec.encode` and the `_to_tensor` casts are the identity here. Their code is not part of this model.
- Construction of the output `TensorDict` (batch size, device) is not modelled. `TensorDict.set` is modelled as overwriting an existing key, and `TensorDict.get` on a missing `action` as a KeyError. The container's code is not part of this model.
- `step_tensordict` is a function the adapter is given (`stepRecord`). It is applied to the output, but its own behaviour is not part of this model.
- `torch.manual_seed` and `_set_seed` appear only as recorded calls, and `seed_generator` is a function parameter. Nothing is claimed about the derived seed's value, for example that it differs from the input.
- `GymLike.GymLikeEnv.Step` requires a frame skip of at least 1. With 0 the loop never runs and the code fails on an unbound `obs`.
- Construction by the base `_EnvWrapper.__init__` is not part of this model. `Construct` assumes that it passes the injected kwargs to `_check_kwargs`. The constructor of `GymLikeEnv` gives the state after a successful construction, Its `done` flags start as false here. The source sets them in the base class, which is not part of this model.
- Rewards are mathematical reals. Float width, rounding and NaN arithmetic are not modelled.
- The simulator's `done` is a boolean, so Python truthiness of other values is not modelled. Rewards are numbers or `None`, and `info[0]` is a mapping. Tuples shorter than three elements, which fail at unpacking, are not modelled.
- A dict `available_envs` maps each name to a list of tasks. Other containers are not modelled.
- No relation is stated between `isDone` (`self.is_done`, set in `_step`) and `isDoneAtReset` (`self._is_done`, set in `_reset`). They may be linked in the base class, which is not part of this model.
- `__repr__` is left out; it only formats text.
- examples/mj_envs/envs_reg.py is left out. It is a static table of environment registrations.
- examples/mj_envs/submitit_jobs.py is left out. It submits cluster jobs through an external scheduler.
