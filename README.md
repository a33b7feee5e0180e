# Airflow operator helpers, modelled in Dafny

This project models the three task-execution helpers in Airflow's
`airflow/utils/operator_helpers.py` and proves properties about them.

- **`context_to_airflow_vars`** flattens a task context into a
  string-to-string map. Names are dotted (`airflow.ctx.*`) or, in the
  environment-variable naming, upper-snake (`AIRFLOW_CTX_*`).
  - First come the extra pairs returned by the user's context-variables hook. Each pair is type-checked, then stored under a prefixed key.
  - Then seven built-in attributes of `task`, `task_instance` and `dag_run` are serialised by type and written over the hook pairs.
  - The model is `ContextVars.ContextToAirflowVars`. This method has the two loops of the source; the second, over the built-ins, is the method `ContextVars.ExportBuiltins` it calls. It is proved equal to the specification function `ContextVars.ContextVars`, and the lemmas below are proved about that function.
- **`KeywordParameters.determine` / `determine_kwargs`** decide which keyword arguments a callable receives.
  - A value error is raised when a positionally filled parameter is also given as a keyword.
  - A callable that declares `**kwargs` receives everything.
  - Any other callable receives only the keywords it names.
  - These are pure functions in `KeywordArgs`.
- **`ExecutionCallableRunner(...).run`** calls the task callable. When the callable is a generator function, `run` drains what it yields into the outlet-event table.
  - An asset `Metadata` value updates its asset's `extra`. When the value has an alias, it also adds an alias event to that alias.
  - Anything else is skipped.
  - What the call returns or raises is the result of `run`.
  - The table is a class whose methods update it in place. `run` is a loop over the yielded values. `UpdateExtra` and `Add` state the whole new table as one map update each. `run`'s loop invariant ties the table to the specification fold `ExecutionRunner.Drain`, whose key-by-key effect is proved separately.

Python values are modelled in `PyValues`:
- truthiness;
- `getattr(obj, name, None)`;
- `str()` of None, bools, ints and objects;
- `str.upper()`;
- `",".join`.

A raised exception is the `Err` side of a `Result`.

Files:

| file | module | contents |
|---|---|---|
| `wrappers.dfy` | `Wrappers` | `Option`, `Result` |
| `py_values.dfy` | `PyValues` | Python values and the built-ins applied to them |
| `context_vars.dfy` | `ContextVars` | the variable-name mapping, `context_to_airflow_vars` |
| `keyword_args.dfy` | `KeywordArgs` | `determine`, `unpacking`, `determine_kwargs` |
| `execution_runner.dfy` | `ExecutionRunner` | the outlet-event table, the runner and its `run` |

## Model

| member | source | states |
|---|---|---|
| `PyValues.Truthy` | airflow/utils/operator_helpers.py:121 | a value is falsy iff it is None, False, 0, "" or [], or an object that is falsy itself |
| `PyValues.GetAttr` | airflow/utils/operator_helpers.py:120 | an attribute the subject has is returned as it is; a non-None result is really an attribute of the subject, with that value |
| `PyValues.Upper` | airflow/utils/operator_helpers.py:113 | upper-casing keeps the length; each lower-case ASCII letter becomes its upper-case letter; every other character is unchanged |
| `PyValues.ParseIntInverse` | airflow/utils/operator_helpers.py:131 | the decimal text `str()` gives for an int reads back as that int |
| `PyValues.DecimalTextInverse` | airflow/utils/operator_helpers.py:131 | a decimal text without a superfluous leading zero or "-0" is the `str()` of exactly the int it reads as |
| `PyValues.PyStr` | airflow/utils/operator_helpers.py:131 | `str()` gives "None", "True" or "False", an int's canonical decimal text that reads back as the int, and an object's own text |
| `PyValues.JoinValues` | airflow/utils/operator_helpers.py:129 | `",".join` succeeds iff every item is a str; otherwise it fails at the first non-str item; on success it is the comma-joined texts |
| `PyValues.SplitJoin` | airflow/utils/operator_helpers.py:129 | comma-joined items that hold no comma split back into exactly those items |
| `ContextVars.VarName` | airflow/utils/operator_helpers.py:39-68 | every mapped name carries the prefix of its naming |
| `ContextVars.VarNameInjective` | airflow/utils/operator_helpers.py:39-68 | two different built-ins never share an exported name, in either naming |
| `ContextVars.OpsDistinct` | airflow/utils/operator_helpers.py:94-102 | the seven built-in attributes export to seven different variables |
| `ContextVars.UserKey` | airflow/utils/operator_helpers.py:111-116 | an exported hook key always carries the prefix, and is the key itself iff the key already has it; otherwise it is the prefix followed by the key, upper-cased only in the environment-variable naming |
| `ContextVars.ContextGet` | airflow/utils/operator_helpers.py:90-92 | `context.get` gives the entry when the key is present and None otherwise |
| `ContextVars.Emits` | airflow/utils/operator_helpers.py:120-121 | a built-in is exported iff its subject is a truthy object of the context that has the attribute and that attribute is truthy; so a missing, None, False, 0, "" or [] attribute, or a falsy object, is never exported |
| `ContextVars.Serialise` | airflow/utils/operator_helpers.py:123-131 | a str is kept; a datetime gives its ISO text; a list of str items gives their comma-joined texts, which split back into the items when none holds a comma; None, a bool and an object give "None", "True"/"False" and the object's text; an int gives its canonical decimal text, which reads back as the int; it raises iff the value is a list with a non-str item, and then names the first such item |
| `ContextVars.UserParams` | airflow/utils/operator_helpers.py:105-117 | every key stored from the hook pairs carries the prefix of the naming; a rejected pair raises one of the two hook-pair errors |
| `ContextVars.ApplyOp` | airflow/utils/operator_helpers.py:119-131 | one built-in raises iff it is exported and its value fails to serialise; otherwise it adds exactly its exported name, holding the serialised value, and leaves every other entry as it was |
| `ContextVars.ApplyOps` | airflow/utils/operator_helpers.py:119-131 | the built-ins remove no entry, and raise only a `",".join` error |
| `ContextVars.ApplyOpsKeys` | airflow/utils/operator_helpers.py:119-131 | the built-ins add exactly the names of those whose subject and attribute are truthy |
| `ContextVars.ContextVars` | airflow/utils/operator_helpers.py:71-133 | the result's keys are exactly the exported names of the hook keys and of the exported built-ins |
| `ContextVars.ContextToAirflowVars` | airflow/utils/operator_helpers.py:71-133 | the two loops compute exactly the specification `ContextVars`: hook pairs first, in order, then the built-ins in the order of `ops` |
| `ContextVars.ExportBuiltins` | airflow/utils/operator_helpers.py:119-133 | the second loop computes exactly `ApplyOps` over the seven built-ins, stopping at the first serialisation error |
| `ContextVars.UserParamsChecks` | airflow/utils/operator_helpers.py:105-109 | the hook pairs are accepted iff every key and value is a str |
| `ContextVars.UserParamsFirstError` | airflow/utils/operator_helpers.py:105-109 | a rejected hook result raises the error for the first bad pair, all earlier pairs being (str, str), with the key checked before the value |
| `ContextVars.UserParamsKeys` | airflow/utils/operator_helpers.py:105-117 | well-typed hook pairs give one entry per exported key of a pair, and no other |
| `ContextVars.UserParamsValues` | airflow/utils/operator_helpers.py:117 | a hook pair's value is stored under its exported key unless a later pair exports to the same key |
| `ContextVars.WrittenMembers` | airflow/utils/operator_helpers.py:119-122 | a name is written by the built-ins iff some built-in with truthy subject and attribute exports to it |
| `ContextVars.ApplyOpsFails` | airflow/utils/operator_helpers.py:119-131 | the built-ins raise iff some exported attribute fails to serialise |
| `ContextVars.ApplyOpsFirstFailure` | airflow/utils/operator_helpers.py:119-131 | when the built-ins raise, the error is that of the first exported attribute that fails to serialise |
| `ContextVars.ApplyOpsEffect` | airflow/utils/operator_helpers.py:119-131 | each exported built-in holds its serialised value, whatever was there before |
| `ContextVars.ApplyOpsUntouched` | airflow/utils/operator_helpers.py:119-131 | a name no exported built-in writes keeps its earlier entry, or its absence |
| `ContextVars.ContextVarsKeysPrefixed` | airflow/utils/operator_helpers.py:111-122 | every key of the result starts with `airflow.ctx.`, or with `AIRFLOW_CTX_` in the environment-variable naming |
| `ContextVars.ContextVarsErrors` | airflow/utils/operator_helpers.py:104-131 | the export raises iff a hook pair is not (str, str) or an exported list attribute has a non-str item; a bad hook pair raises before any built-in is looked at, naming the first bad pair |
| `ContextVars.ContextVarsBuiltins` | airflow/utils/operator_helpers.py:104-131 | an exported built-in overrides a hook pair with the same name; a built-in that is not exported leaves its name as the hook pairs left it |
| `ContextVars.ContextVarsWithoutHook` | airflow/utils/operator_helpers.py:119-122 | with no hook pairs, a built-in's name is present iff its subject and attribute are both truthy, and no other key appears |
| `ContextVars.ContextVarsUserPair` | airflow/utils/operator_helpers.py:104-131 | a hook pair reaches the result unchanged under its exported key unless a later pair or an exported built-in takes that key |
| `ContextVars.ContextVarsExampleDefault` | airflow/utils/operator_helpers.py:71-133 | owner "alice", dag_id "d1" and try_number 2 give exactly `airflow.ctx.dag_owner`, `airflow.ctx.dag_id` and `airflow.ctx.try_number` = "2" |
| `ContextVars.ContextVarsExampleEnv` | airflow/utils/operator_helpers.py:71-133 | the same context gives exactly `AIRFLOW_CTX_DAG_OWNER`, `AIRFLOW_CTX_DAG_ID` and `AIRFLOW_CTX_TRY_NUMBER` in the environment-variable naming |
| `KeywordArgs.FirstCollision` | airflow/utils/operator_helpers.py:168-177 | the check loop finds the first checked parameter whose name is a keyword; it finds none only when no checked parameter collides; keyword-only parameters and `**kwargs` are skipped |
| `KeywordArgs.HasWildcardKwargs` | airflow/utils/operator_helpers.py:166 | holds iff some declared parameter is `**kwargs` |
| `KeywordArgs.Positional` | airflow/utils/operator_helpers.py:168 | exactly the first `min(len(args), len(parameters))` parameters are checked, in signature order |
| `KeywordArgs.Determine` | airflow/utils/operator_helpers.py:155-185 | raises iff one of the first `len(args)` parameters collides, whatever the wildcard; the error names the first collision; with `**kwargs` the result is the input exactly; otherwise its keys are exactly the declared names present in kwargs, with values unchanged |
| `KeywordArgs.KeywordParameters.Unpacking` | airflow/utils/operator_helpers.py:187-189 | the mapping unpacked is the stored one, unchanged: wrapping it again gives the same parameters |
| `KeywordArgs.DetermineKwargs` | airflow/utils/operator_helpers.py:192-205 | raises iff `determine` does, naming the first colliding parameter; with `**kwargs` kwargs pass unchanged; otherwise the mapping passed is a sub-map of kwargs holding only names the signature declares (positional-only and `*args` names included), and every declared name present in kwargs is kept |
| `KeywordArgs.DetermineKwargsIdempotent` | airflow/utils/operator_helpers.py:179-185 | filtering the already-filtered kwargs again succeeds and changes nothing |
| `ExecutionRunner.OutletEventAccessors.constructor` | airflow/utils/operator_helpers.py:232 | the table starts as the accessors it is given |
| `ExecutionRunner.OutletEventAccessors.UpdateExtra` | airflow/utils/operator_helpers.py:272 | indexing creates the accessor if needed; its `extra` is updated with later values winning; its alias events and every other key are unchanged |
| `ExecutionRunner.OutletEventAccessors.Add` | airflow/utils/operator_helpers.py:274-275 | indexing creates the accessor if needed; one alias event is appended; its `extra` and every other key are unchanged |
| `ExecutionRunner.ExecutionCallableRunner.constructor` | airflow/utils/operator_helpers.py:230-235 | the runner holds the callable and the shared outlet-event table |
| `ExecutionRunner.ExecutionCallableRunner.Run` | airflow/utils/operator_helpers.py:258-282 | returns or raises exactly as the callable does; a plain function leaves the table alone; a generator's yielded values are folded in order into the table, as `Drain` states |
| `ExecutionRunner.ApplyYield` | airflow/utils/operator_helpers.py:271-277 | one yielded value adds exactly the keys of its asset and of its alias, if any, and leaves every other accessor as it was |
| `ExecutionRunner.ApplyYieldLookup` | airflow/utils/operator_helpers.py:271-277 | one yielded value changes only its asset's `extra` and its alias's events, by exactly that value's extra and event |
| `ExecutionRunner.DrainLookup` | airflow/utils/operator_helpers.py:270-277 | after draining, each accessor is the old one: its `extra` is updated with the extras yielded for it, in order, and the alias events yielded for it are appended in yield order; an asset's alias events and an alias's `extra` never change |
| `ExecutionRunner.Drain` | airflow/utils/operator_helpers.py:270-277 | draining removes no key and adds exactly the assets and aliases named by the yielded metadata |
| `ExecutionRunner.DrainAppend` | airflow/utils/operator_helpers.py:270 | draining two stretches one after the other is draining their concatenation |
| `ExecutionRunner.DrainIgnoresUnknown` | airflow/utils/operator_helpers.py:270-280 | values that are not `Metadata` leave the table exactly as it was |

## Left out

- The user's context-variables hook, `settings.get_airflow_context_vars`, is global and user-defined. The model takes its result as an input: a sequence of (key, value) pairs in the dict's iteration order.
- `datetime.isoformat()` and `str()` of arbitrary objects are treated as opaque. A datetime carries its ISO text, and an object carries the text `str()` gives for it. Floats and other numeric kinds are not modelled.
- `str.upper()` is modelled on the ASCII letters only. Unicode case mapping, which can change a string's length, is not part of this model.
- `getattr` only finds attributes on objects. Attributes of built-in values, such as a method of a str, are not modelled.
- A Python `dict` with non-hashable or equal-but-distinct keys is not modelled. Hook keys are values, and only str keys go past the type check.
- `inspect.signature` is replaced by a declared list of (name, kind) parameters. Only the number of positional arguments is modelled, not their values.
- `inspect.isgeneratorfunction` is replaced by an explicit single-shot or generator tag on the callable.
- The callable's code is not modelled. It is given by what it yields, in order, and whether it returns or raises; how the arguments `run` forwards affect it is not modelled.
- `make_kwargs_callable` (airflow/utils/operator_helpers.py:208-222) is `determine_kwargs` composed with a call. It is not modelled separately.
- The class docstring of `KeywordParameters` (airflow/utils/operator_helpers.py:140-149) also describes a `serializing` method and a lazy proxy for a task context. Neither exists in the code: `unpacking` (lines 187-189) returns the stored mapping unconditionally, and so does the model.
- Logging in `run` has no effect on the state and is left out: the warning for an unknown value and the debug dump.
- The real `OutletEventAccessors`, `OutletEventAccessor` and `Metadata` classes are defined outside this file. The table is modelled as a map from asset or alias to (extra mapping, list of added (asset, extra) events). The alias event records only the asset and the extra.
- A yielded `Metadata` whose alias is set but falsy is modelled as having no alias: the alias is an `Option`.
