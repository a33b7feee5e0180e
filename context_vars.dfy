/**
 * The export of a task context as a flat string-to-string mapping
 * (`context_to_airflow_vars`), in the dotted `airflow.ctx.*` naming or the
 * upper-snake `AIRFLOW_CTX_*` environment-variable naming.
 *
 * `ContextVars` is the specification: the user pairs returned by the
 * context-variables settings hook, prefixed, then the seven built-in
 * attributes, serialised by type. `ContextToAirflowVars` is the routine
 * itself, with its two loops filling `params`, proved equal to it.
 */
module ContextVars {
  import opened Wrappers
  import opened PyValues

  const DefaultFormatPrefix: string := "airflow.ctx."
  const EnvVarFormatPrefix: string := "AIRFLOW_CTX_"

  function ModePrefix(inEnvVarFormat: bool): string {
    if inEnvVarFormat then EnvVarFormatPrefix else DefaultFormatPrefix
  }

  /** The keys of the variable-name mapping: one per exported built-in attribute. */
  datatype ContextVar = DagId | TaskId | LogicalDate | TryNumber | DagRunId | DagOwner | DagEmail

  function VarSuffix(v: ContextVar, inEnvVarFormat: bool): string {
    if inEnvVarFormat then
      match v
      case DagId => "DAG_ID"
      case TaskId => "TASK_ID"
      case LogicalDate => "LOGICAL_DATE"
      case TryNumber => "TRY_NUMBER"
      case DagRunId => "DAG_RUN_ID"
      case DagOwner => "DAG_OWNER"
      case DagEmail => "DAG_EMAIL"
    else
      match v
      case DagId => "dag_id"
      case TaskId => "task_id"
      case LogicalDate => "logical_date"
      case TryNumber => "try_number"
      case DagRunId => "dag_run_id"
      case DagOwner => "dag_owner"
      case DagEmail => "dag_email"
  }

  /** The variable-name mapping: the exported name of a built-in in either naming. */
  function VarName(v: ContextVar, inEnvVarFormat: bool): (r: string)
    ensures ModePrefix(inEnvVarFormat) <= r
  {
    ModePrefix(inEnvVarFormat) + VarSuffix(v, inEnvVarFormat)
  }

  /** No two built-ins share an exported name, in either naming. */
  lemma VarNameInjective(a: ContextVar, b: ContextVar, inEnvVarFormat: bool)
    requires a != b
    ensures VarName(a, inEnvVarFormat) != VarName(b, inEnvVarFormat)
  {
    var p := ModePrefix(inEnvVarFormat);
    assert VarName(a, inEnvVarFormat)[|p|..] == VarSuffix(a, inEnvVarFormat);
    assert VarName(b, inEnvVarFormat)[|p|..] == VarSuffix(b, inEnvVarFormat);
    var sa, sb := VarSuffix(a, inEnvVarFormat), VarSuffix(b, inEnvVarFormat);
    if |sa| == |sb| {
      if sa[0] == sb[0] {
        assert sa[4] != sb[4];
      }
    }
  }

  /**
   * One built-in attribute: the context entry it is read from
   * (`task`, `task_instance` or `dag_run`), the attribute name, and the
   * variable it is exported as.
   */
  datatype Op = Op(subject: string, attr: string, target: ContextVar)

  const Ops: seq<Op> := [
    Op("task", "email", DagEmail),
    Op("task", "owner", DagOwner),
    Op("task_instance", "dag_id", DagId),
    Op("task_instance", "task_id", TaskId),
    Op("task_instance", "logical_date", LogicalDate),
    Op("task_instance", "try_number", TryNumber),
    Op("dag_run", "run_id", DagRunId)
  ]

  predicate DistinctTargets(ops: seq<Op>) {
    forall i, j :: 0 <= i < j < |ops| ==> ops[i].target != ops[j].target
  }

  /** `context.get(key)` */
  function ContextGet(context: map<string, PyValue>, key: string): (r: PyValue)
    ensures key in context ==> r == context[key]
    ensures key !in context ==> r == NoneValue
  {
    if key in context then context[key] else NoneValue
  }

  function AttrOf(context: map<string, PyValue>, op: Op): PyValue {
    GetAttr(ContextGet(context, op.subject), op.attr)
  }

  /** A built-in is exported exactly when its subject and the attribute are both truthy. */
  function Emits(context: map<string, PyValue>, op: Op): (r: bool)
    ensures r <==> op.subject in context && context[op.subject].Obj? && context[op.subject].truthy
                   && op.attr in context[op.subject].attrs && Truthy(context[op.subject].attrs[op.attr])
    ensures r ==> op.subject in context && context[op.subject].Obj? && op.attr in context[op.subject].attrs
    ensures r ==> context[op.subject].truthy && context[op.subject].attrs[op.attr] !in FalsyBuiltins
    ensures AttrOf(context, op) in FalsyBuiltins ==> !r
  {
    Truthy(ContextGet(context, op.subject)) && Truthy(AttrOf(context, op))
  }

  /** The TypeErrors the export raises. */
  datatype ContextError =
    | KeyNotString(key: PyValue)                 // a hook key that is not a str
    | ValueNotString(name: string, value: PyValue) // a hook value that is not a str
    | JoinItemNotString(index: nat)              // `",".join` met a non-str list item

  /**
   * The serialisation of a built-in value, by type: a str as it is, a
   * datetime in its ISO form, a list comma-joined, anything else by `str()`.
   */
  function Serialise(v: PyValue): (r: Result<string, ContextError>)
    ensures r.Err? <==> v.List? && !AllStr(v.items)
    ensures r.Err? ==> r.error.JoinItemNotString? && r.error.index < |v.items| && !v.items[r.error.index].Str?
                       && forall j :: 0 <= j < r.error.index ==> v.items[j].Str?
    ensures v.Str? ==> r == Ok(v.s)
    ensures v.DateTime? ==> r == Ok(v.iso)
    ensures v.NoneValue? ==> r == Ok("None")
    ensures v.Bool? ==> r == Ok(if v.b then "True" else "False")
    ensures v.Int? ==> r.Ok? && IsDecimalText(r.value) && ParseInt(r.value) == Some(v.i)
    ensures v.Obj? ==> r == Ok(v.text)
    ensures v.List? && AllStr(v.items) ==> r == Ok(Join(Texts(v.items)))
    ensures v.List? && |v.items| > 0 && AllStr(v.items) && (forall i :: 0 <= i < |v.items| ==> ',' !in v.items[i].s)
            ==> r.Ok? && Split(r.value) == Texts(v.items)
  {
    match v
    case Str(s) => Ok(s)
    case DateTime(iso) => Ok(iso)
    case List(items) =>
      (match JoinValues(items)
       case Ok(text) =>
         if |items| > 0 && forall i :: 0 <= i < |items| ==> ',' !in items[i].s then
           SplitJoin(Texts(items));
           Ok(text)
         else Ok(text)
       case Err(index) => Err(JoinItemNotString(index)))
    case _ => Ok(PyStr(v))
  }

  // ---------------------------------------------------------------------------
  // The user pairs returned by the context-variables hook

  /**
   * The exported name of a user key: kept when it already carries the
   * naming's prefix, otherwise prefixed (and, in the environment-variable
   * naming, upper-cased). The prefix test is on the key as given.
   */
  function UserKey(key: string, inEnvVarFormat: bool): (r: string)
    ensures ModePrefix(inEnvVarFormat) <= r
    ensures r == key <==> ModePrefix(inEnvVarFormat) <= key
    ensures r != key ==> r == ModePrefix(inEnvVarFormat) + (if inEnvVarFormat then Upper(key) else key)
  {
    if inEnvVarFormat then
      if EnvVarFormatPrefix <= key then key else EnvVarFormatPrefix + Upper(key)
    else
      if DefaultFormatPrefix <= key then key else DefaultFormatPrefix + key
  }

  predicate GoodPair(p: (PyValue, PyValue)) {
    p.0.Str? && p.1.Str?
  }

  predicate AllGood(pairs: seq<(PyValue, PyValue)>) {
    forall i :: 0 <= i < |pairs| ==> GoodPair(pairs[i])
  }

  /** The key is checked before the value. */
  function PairErrorOf(p: (PyValue, PyValue)): ContextError
    requires !GoodPair(p)
  {
    if !p.0.Str? then KeyNotString(p.0) else ValueNotString(p.0.s, p.1)
  }

  function FinalKey(p: (PyValue, PyValue), inEnvVarFormat: bool): string
    requires p.0.Str?
  {
    UserKey(p.0.s, inEnvVarFormat)
  }

  /** The hook's pairs, in order, each checked and then stored under its exported name. */
  function UserParams(pairs: seq<(PyValue, PyValue)>, inEnvVarFormat: bool): (r: Result<map<string, string>, ContextError>)
    ensures r.Ok? ==> forall k :: k in r.value ==> ModePrefix(inEnvVarFormat) <= k
    ensures r.Err? ==> r.error.KeyNotString? || r.error.ValueNotString?
    decreases |pairs|
  {
    if pairs == [] then Ok(map[])
    else
      var n := |pairs| - 1;
      var last := pairs[n];
      match UserParams(pairs[..n], inEnvVarFormat)
      case Err(e) => Err(e)
      case Ok(m) =>
        if !GoodPair(last) then Err(PairErrorOf(last))
        else
          Ok(m[UserKey(last.0.s, inEnvVarFormat) := last.1.s])
  }

  // ---------------------------------------------------------------------------
  // The built-ins, written over the user pairs

  function ApplyOp(context: map<string, PyValue>, op: Op, inEnvVarFormat: bool, params: map<string, string>)
    : (r: Result<map<string, string>, ContextError>)
    ensures r.Err? <==> Emits(context, op) && Serialise(AttrOf(context, op)).Err?
    ensures r.Ok? ==> r.value.Keys == params.Keys + (if Emits(context, op) then {VarName(op.target, inEnvVarFormat)} else {})
    ensures r.Ok? && Emits(context, op) ==> r.value[VarName(op.target, inEnvVarFormat)] == Serialise(AttrOf(context, op)).value
    ensures r.Ok? ==> forall k :: k in params && k != VarName(op.target, inEnvVarFormat) ==> r.value[k] == params[k]
  {
    if Emits(context, op) then
      match Serialise(AttrOf(context, op))
      case Ok(text) => Ok(params[VarName(op.target, inEnvVarFormat) := text])
      case Err(e) => Err(e)
    else Ok(params)
  }

  function ApplyOps(context: map<string, PyValue>, ops: seq<Op>, inEnvVarFormat: bool, params: map<string, string>)
    : (r: Result<map<string, string>, ContextError>)
    ensures r.Ok? ==> params.Keys <= r.value.Keys
    ensures r.Err? ==> r.error.JoinItemNotString?
    decreases |ops|
  {
    if ops == [] then Ok(params)
    else
      match ApplyOps(context, ops[..|ops| - 1], inEnvVarFormat, params)
      case Err(e) => Err(e)
      case Ok(m) => ApplyOp(context, ops[|ops| - 1], inEnvVarFormat, m)
  }

  /** The names the emitting built-ins of `ops` are exported under. */
  function Written(context: map<string, PyValue>, ops: seq<Op>, inEnvVarFormat: bool): set<string>
    decreases |ops|
  {
    if ops == [] then {}
    else
      var last := ops[|ops| - 1];
      Written(context, ops[..|ops| - 1], inEnvVarFormat)
      + (if Emits(context, last) then {VarName(last.target, inEnvVarFormat)} else {})
  }

  /** The built-ins add exactly the names of the emitting ones, and remove none. */
  lemma {:induction false} ApplyOpsKeys(context: map<string, PyValue>, ops: seq<Op>, inEnvVarFormat: bool, params: map<string, string>)
    requires ApplyOps(context, ops, inEnvVarFormat, params).Ok?
    ensures ApplyOps(context, ops, inEnvVarFormat, params).value.Keys == params.Keys + Written(context, ops, inEnvVarFormat)
    decreases |ops|
  {
    if ops != [] {
      ApplyOpsKeys(context, ops[..|ops| - 1], inEnvVarFormat, params);
    }
  }

  lemma {:induction false} WrittenMembers(context: map<string, PyValue>, ops: seq<Op>, inEnvVarFormat: bool, k: string)
    ensures k in Written(context, ops, inEnvVarFormat) <==>
      exists i :: 0 <= i < |ops| && Emits(context, ops[i]) && VarName(ops[i].target, inEnvVarFormat) == k
  {
    if k in Written(context, ops, inEnvVarFormat) {
      WrittenSound(context, ops, inEnvVarFormat, k);
    } else {
      forall i | 0 <= i < |ops| && Emits(context, ops[i])
        ensures VarName(ops[i].target, inEnvVarFormat) != k
      {
        WrittenComplete(context, ops, inEnvVarFormat, i);
      }
    }
  }

  lemma {:induction false} WrittenSound(context: map<string, PyValue>, ops: seq<Op>, inEnvVarFormat: bool, k: string)
    requires k in Written(context, ops, inEnvVarFormat)
    ensures exists i :: 0 <= i < |ops| && Emits(context, ops[i]) && VarName(ops[i].target, inEnvVarFormat) == k
    decreases |ops|
  {
    var n := |ops| - 1;
    var init := ops[..n];
    if k in Written(context, init, inEnvVarFormat) {
      WrittenSound(context, init, inEnvVarFormat, k);
      var i :| 0 <= i < n && Emits(context, init[i]) && VarName(init[i].target, inEnvVarFormat) == k;
      assert ops[i] == init[i];
    } else {
      assert Emits(context, ops[n]) && VarName(ops[n].target, inEnvVarFormat) == k;
    }
  }

  lemma {:induction false} WrittenComplete(context: map<string, PyValue>, ops: seq<Op>, inEnvVarFormat: bool, i: nat)
    requires i < |ops| && Emits(context, ops[i])
    ensures VarName(ops[i].target, inEnvVarFormat) in Written(context, ops, inEnvVarFormat)
    decreases |ops|
  {
    var n := |ops| - 1;
    var init := ops[..n];
    if i < n {
      assert ops[i] == init[i];
      WrittenComplete(context, init, inEnvVarFormat, i);
    }
    assert Written(context, init, inEnvVarFormat) <= Written(context, ops, inEnvVarFormat);
  }

  /** The specification of `context_to_airflow_vars`. */
  function ContextVars(context: map<string, PyValue>, contextParams: seq<(PyValue, PyValue)>, inEnvVarFormat: bool)
    : (r: Result<map<string, string>, ContextError>)
    ensures r.Ok? ==> r.value.Keys == ExportedKeys(contextParams, inEnvVarFormat) + Written(context, Ops, inEnvVarFormat)
  {
    match UserParams(contextParams, inEnvVarFormat)
    case Err(e) => Err(e)
    case Ok(u) =>
      UserParamsChecks(contextParams, inEnvVarFormat);
      UserParamsKeys(contextParams, inEnvVarFormat);
      var r := ApplyOps(context, Ops, inEnvVarFormat, u);
      if r.Ok? then ApplyOpsKeys(context, Ops, inEnvVarFormat, u); r else r
  }

  // ---------------------------------------------------------------------------
  // The routine

  /**
   * `context_to_airflow_vars(context, in_env_var_format)`, with the hook's
   * result `settings.get_airflow_context_vars(context)` passed in as
   * `contextParams`, its pairs in the dict's iteration order.
   */
  method ContextToAirflowVars(context: map<string, PyValue>, contextParams: seq<(PyValue, PyValue)>, inEnvVarFormat: bool)
    returns (r: Result<map<string, string>, ContextError>)
    ensures r == ContextVars(context, contextParams, inEnvVarFormat)
  {
    var params: map<string, string> := map[];
    var i := 0;
    while i < |contextParams|
      invariant 0 <= i <= |contextParams|
      invariant UserParams(contextParams[..i], inEnvVarFormat) == Ok(params)
    {
      var (key, value) := contextParams[i];
      if !key.Str? {
        UserParamsStopsAt(contextParams, i, inEnvVarFormat);
        return Err(KeyNotString(key));
      }
      if !value.Str? {
        UserParamsStopsAt(contextParams, i, inEnvVarFormat);
        return Err(ValueNotString(key.s, value));
      }
      var name := key.s;
      if inEnvVarFormat {
        if !(EnvVarFormatPrefix <= name) {
          name := EnvVarFormatPrefix + Upper(name);
        }
      } else {
        if !(DefaultFormatPrefix <= name) {
          name := DefaultFormatPrefix + name;
        }
      }
      assert name == FinalKey(contextParams[i], inEnvVarFormat);
      UserParamsStep(contextParams, i, inEnvVarFormat, params);
      params := params[name := value.s];
      i := i + 1;
    }
    assert contextParams[..i] == contextParams;
    r := ExportBuiltins(context, inEnvVarFormat, params);
  }

  /**
   * The second loop of `context_to_airflow_vars`: each built-in whose subject
   * and attribute are truthy is serialised and written over `params`.
   */
  method ExportBuiltins(context: map<string, PyValue>, inEnvVarFormat: bool, userParams: map<string, string>)
    returns (r: Result<map<string, string>, ContextError>)
    ensures r == ApplyOps(context, Ops, inEnvVarFormat, userParams)
  {
    var params := userParams;
    var j := 0;
    while j < |Ops|
      invariant 0 <= j <= |Ops|
      invariant ApplyOps(context, Ops[..j], inEnvVarFormat, userParams) == Ok(params)
    {
      var op := Ops[j];
      var subject := ContextGet(context, op.subject);
      var attr := GetAttr(subject, op.attr);
      ghost var before := params;
      if Truthy(subject) && Truthy(attr) {
        var name := VarName(op.target, inEnvVarFormat);
        var text: string;
        if attr.Str? {
          text := attr.s;
        } else if attr.DateTime? {
          text := attr.iso;
        } else if attr.List? {
          var joined := JoinValues(attr.items);
          if joined.Err? {
            ApplyOpsStopsAt(context, Ops, j, inEnvVarFormat, userParams);
            return Err(JoinItemNotString(joined.error));
          }
          text := joined.value;
        } else {
          text := PyStr(attr);
        }
        assert Serialise(attr) == Ok(text);
        params := params[name := text];
      }
      assert ApplyOp(context, op, inEnvVarFormat, before) == Ok(params);
      ApplyOpsPrefixStep(context, Ops, j, inEnvVarFormat, userParams, before);
      j := j + 1;
    }
    assert Ops[..j] == Ops;
    return Ok(params);
  }

  // ---------------------------------------------------------------------------
  // Lemmas the routine needs: an exception ends the export

  lemma {:induction false} UserParamsErrPrefix(pairs: seq<(PyValue, PyValue)>, n: nat, inEnvVarFormat: bool)
    requires n <= |pairs|
    requires UserParams(pairs[..n], inEnvVarFormat).Err?
    ensures UserParams(pairs, inEnvVarFormat) == UserParams(pairs[..n], inEnvVarFormat)
    decreases |pairs| - n
  {
    if n == |pairs| {
      assert pairs[..n] == pairs;
    } else {
      var init := pairs[..|pairs| - 1];
      assert init[..n] == pairs[..n];
      UserParamsErrPrefix(init, n, inEnvVarFormat);
    }
  }

  lemma UserParamsStep(pairs: seq<(PyValue, PyValue)>, i: nat, inEnvVarFormat: bool, m: map<string, string>)
    requires i < |pairs| && GoodPair(pairs[i])
    requires UserParams(pairs[..i], inEnvVarFormat) == Ok(m)
    ensures UserParams(pairs[..i + 1], inEnvVarFormat) == Ok(m[FinalKey(pairs[i], inEnvVarFormat) := pairs[i].1.s])
  {
    assert pairs[..i + 1][..i] == pairs[..i];
  }

  lemma ApplyOpsPrefixStep(context: map<string, PyValue>, ops: seq<Op>, j: nat, inEnvVarFormat: bool,
                           params: map<string, string>, m: map<string, string>)
    requires j < |ops|
    requires ApplyOps(context, ops[..j], inEnvVarFormat, params) == Ok(m)
    ensures ApplyOps(context, ops[..j + 1], inEnvVarFormat, params) == ApplyOp(context, ops[j], inEnvVarFormat, m)
  {
    assert ops[..j + 1][..j] == ops[..j];
  }

  lemma UserParamsStopsAt(pairs: seq<(PyValue, PyValue)>, i: nat, inEnvVarFormat: bool)
    requires i < |pairs|
    requires UserParams(pairs[..i], inEnvVarFormat).Ok?
    requires !GoodPair(pairs[i])
    ensures UserParams(pairs, inEnvVarFormat) == Err(PairErrorOf(pairs[i]))
  {
    assert pairs[..i + 1][..i] == pairs[..i];
    UserParamsErrPrefix(pairs, i + 1, inEnvVarFormat);
  }

  lemma {:induction false} ApplyOpsErrPrefix(context: map<string, PyValue>, ops: seq<Op>, n: nat, inEnvVarFormat: bool, params: map<string, string>)
    requires n <= |ops|
    requires ApplyOps(context, ops[..n], inEnvVarFormat, params).Err?
    ensures ApplyOps(context, ops, inEnvVarFormat, params) == ApplyOps(context, ops[..n], inEnvVarFormat, params)
    decreases |ops| - n
  {
    if n == |ops| {
      assert ops[..n] == ops;
    } else {
      var init := ops[..|ops| - 1];
      assert init[..n] == ops[..n];
      ApplyOpsErrPrefix(context, init, n, inEnvVarFormat, params);
    }
  }

  lemma ApplyOpsStopsAt(context: map<string, PyValue>, ops: seq<Op>, j: nat, inEnvVarFormat: bool, params: map<string, string>)
    requires j < |ops|
    requires ApplyOps(context, ops[..j], inEnvVarFormat, params).Ok?
    requires Emits(context, ops[j]) && Serialise(AttrOf(context, ops[j])).Err?
    ensures ApplyOps(context, ops, inEnvVarFormat, params) == Err(Serialise(AttrOf(context, ops[j])).error)
  {
    assert ops[..j + 1][..j] == ops[..j];
    ApplyOpsErrPrefix(context, ops, j + 1, inEnvVarFormat, params);
  }

  // ---------------------------------------------------------------------------
  // Properties of the specification

  /** Checking stops at the first pair whose key, then value, is not a str. */
  lemma {:induction false} UserParamsChecks(pairs: seq<(PyValue, PyValue)>, inEnvVarFormat: bool)
    ensures UserParams(pairs, inEnvVarFormat).Ok? <==> AllGood(pairs)
    decreases |pairs|
  {
    if pairs != [] {
      var n := |pairs| - 1;
      var init := pairs[..n];
      assert forall i :: 0 <= i < n ==> init[i] == pairs[i];
      UserParamsChecks(init, inEnvVarFormat);
    }
  }

  /** The error names the first pair whose key, then value, is not a str. */
  lemma {:induction false} UserParamsFirstError(pairs: seq<(PyValue, PyValue)>, inEnvVarFormat: bool)
    requires UserParams(pairs, inEnvVarFormat).Err?
    ensures exists i :: 0 <= i < |pairs| && !GoodPair(pairs[i]) && AllGood(pairs[..i])
                        && UserParams(pairs, inEnvVarFormat).error == PairErrorOf(pairs[i])
    decreases |pairs|
  {
    var n := |pairs| - 1;
    var init := pairs[..n];
    if UserParams(init, inEnvVarFormat).Err? {
      UserParamsFirstError(init, inEnvVarFormat);
      var i :| 0 <= i < |init| && !GoodPair(init[i]) && AllGood(init[..i])
               && UserParams(init, inEnvVarFormat).error == PairErrorOf(init[i]);
      assert init[..i] == pairs[..i];
      assert init[i] == pairs[i];
    } else {
      UserParamsChecks(init, inEnvVarFormat);
      assert pairs[..n] == init;
    }
  }

  /** A later pair whose key is exported under the same name replaces pair `i`. */
  predicate OverriddenLater(pairs: seq<(PyValue, PyValue)>, i: nat, inEnvVarFormat: bool)
    requires i < |pairs| && AllGood(pairs)
  {
    exists j :: i < j < |pairs| && FinalKey(pairs[j], inEnvVarFormat) == FinalKey(pairs[i], inEnvVarFormat)
  }

  /** The exported names of the hook keys that are strs. */
  function ExportedKeys(pairs: seq<(PyValue, PyValue)>, inEnvVarFormat: bool): set<string> {
    set i | 0 <= i < |pairs| && pairs[i].0.Str? :: UserKey(pairs[i].0.s, inEnvVarFormat)
  }

  lemma ExportedKeysSnoc(pairs: seq<(PyValue, PyValue)>, inEnvVarFormat: bool)
    requires |pairs| > 0 && pairs[|pairs| - 1].0.Str?
    ensures ExportedKeys(pairs, inEnvVarFormat)
         == ExportedKeys(pairs[..|pairs| - 1], inEnvVarFormat) + {UserKey(pairs[|pairs| - 1].0.s, inEnvVarFormat)}
  {
    var n := |pairs| - 1;
    var init := pairs[..n];
    forall k | k in ExportedKeys(pairs, inEnvVarFormat)
      ensures k in ExportedKeys(init, inEnvVarFormat) + {UserKey(pairs[n].0.s, inEnvVarFormat)}
    {
      var i :| 0 <= i < |pairs| && pairs[i].0.Str? && UserKey(pairs[i].0.s, inEnvVarFormat) == k;
      if i < n {
        assert init[i] == pairs[i];
      }
    }
    forall k | k in ExportedKeys(init, inEnvVarFormat)
      ensures k in ExportedKeys(pairs, inEnvVarFormat)
    {
      var i :| 0 <= i < n && init[i].0.Str? && UserKey(init[i].0.s, inEnvVarFormat) == k;
      assert pairs[i] == init[i];
    }
  }

  /** Well-typed pairs give one entry per exported name of a pair, and no other. */
  lemma {:induction false} UserParamsKeys(pairs: seq<(PyValue, PyValue)>, inEnvVarFormat: bool)
    requires AllGood(pairs)
    ensures UserParams(pairs, inEnvVarFormat).Ok?
    ensures UserParams(pairs, inEnvVarFormat).value.Keys == ExportedKeys(pairs, inEnvVarFormat)
    decreases |pairs|
  {
    if pairs != [] {
      var n := |pairs| - 1;
      var init := pairs[..n];
      assert AllGood(init) by {
        forall i | 0 <= i < n ensures GoodPair(init[i]) { assert init[i] == pairs[i]; }
      }
      UserParamsKeys(init, inEnvVarFormat);
      ExportedKeysSnoc(pairs, inEnvVarFormat);
    }
  }

  /** The entry under a pair's exported name holds that pair's value when no later pair takes the name. */
  lemma {:induction false} UserParamsValues(pairs: seq<(PyValue, PyValue)>, inEnvVarFormat: bool, i: nat)
    requires AllGood(pairs)
    requires i < |pairs| && !OverriddenLater(pairs, i, inEnvVarFormat)
    ensures UserParams(pairs, inEnvVarFormat).Ok?
    ensures FinalKey(pairs[i], inEnvVarFormat) in UserParams(pairs, inEnvVarFormat).value
    ensures UserParams(pairs, inEnvVarFormat).value[FinalKey(pairs[i], inEnvVarFormat)] == pairs[i].1.s
    decreases |pairs|
  {
    var n := |pairs| - 1;
    var init := pairs[..n];
    assert AllGood(init) by {
      forall j | 0 <= j < n ensures GoodPair(init[j]) { assert init[j] == pairs[j]; }
    }
    UserParamsChecks(init, inEnvVarFormat);
    if i < n {
      assert FinalKey(pairs[n], inEnvVarFormat) != FinalKey(pairs[i], inEnvVarFormat);
      assert !OverriddenLater(init, i, inEnvVarFormat) by {
        forall j | i < j < n ensures FinalKey(init[j], inEnvVarFormat) != FinalKey(init[i], inEnvVarFormat) {
          assert init[j] == pairs[j] && init[i] == pairs[i];
        }
      }
      UserParamsValues(init, inEnvVarFormat, i);
    }
  }

  /** A built-in that is exported and serialises without raising. */
  predicate ExportsCleanly(context: map<string, PyValue>, op: Op) {
    Emits(context, op) ==> Serialise(AttrOf(context, op)).Ok?
  }

  /** The built-ins raise exactly when some exported attribute fails to serialise. */
  lemma {:induction false} ApplyOpsFails(context: map<string, PyValue>, ops: seq<Op>, inEnvVarFormat: bool, params: map<string, string>)
    ensures ApplyOps(context, ops, inEnvVarFormat, params).Ok? <==>
      forall i :: 0 <= i < |ops| ==> ExportsCleanly(context, ops[i])
    decreases |ops|
  {
    if ops != [] {
      var n := |ops| - 1;
      var init := ops[..n];
      assert forall i :: 0 <= i < n ==> init[i] == ops[i];
      ApplyOpsFails(context, init, inEnvVarFormat, params);
    }
  }

  /** When the built-ins raise, the error is the one of the first attribute that fails to serialise. */
  lemma {:induction false} ApplyOpsFirstFailure(context: map<string, PyValue>, ops: seq<Op>, inEnvVarFormat: bool, params: map<string, string>)
    requires ApplyOps(context, ops, inEnvVarFormat, params).Err?
    ensures exists i :: 0 <= i < |ops| && !ExportsCleanly(context, ops[i])
                        && (forall j :: 0 <= j < i ==> ExportsCleanly(context, ops[j]))
                        && ApplyOps(context, ops, inEnvVarFormat, params).error == Serialise(AttrOf(context, ops[i])).error
    decreases |ops|
  {
    var n := |ops| - 1;
    var init := ops[..n];
    assert forall i :: 0 <= i < n ==> init[i] == ops[i];
    if ApplyOps(context, init, inEnvVarFormat, params).Err? {
      ApplyOpsFirstFailure(context, init, inEnvVarFormat, params);
      var i :| 0 <= i < |init| && !ExportsCleanly(context, init[i])
               && (forall j :: 0 <= j < i ==> ExportsCleanly(context, init[j]))
               && ApplyOps(context, init, inEnvVarFormat, params).error == Serialise(AttrOf(context, init[i])).error;
    } else {
      ApplyOpsFails(context, init, inEnvVarFormat, params);
    }
  }

  /** With distinct targets, every exported built-in holds its serialised value, whatever was there before. */
  lemma {:induction false} ApplyOpsEffect(context: map<string, PyValue>, ops: seq<Op>, inEnvVarFormat: bool, params: map<string, string>)
    requires DistinctTargets(ops)
    requires ApplyOps(context, ops, inEnvVarFormat, params).Ok?
    ensures forall i :: 0 <= i < |ops| && Emits(context, ops[i]) ==>
      Serialise(AttrOf(context, ops[i])).Ok?
      && VarName(ops[i].target, inEnvVarFormat) in ApplyOps(context, ops, inEnvVarFormat, params).value
      && ApplyOps(context, ops, inEnvVarFormat, params).value[VarName(ops[i].target, inEnvVarFormat)]
         == Serialise(AttrOf(context, ops[i])).value
    decreases |ops|
  {
    if ops != [] {
      var n := |ops| - 1;
      var init, last := ops[..n], ops[n];
      assert DistinctTargets(init) by {
        forall i, j | 0 <= i < j < n ensures init[i].target != init[j].target {
          assert init[i] == ops[i] && init[j] == ops[j];
        }
      }
      var m := ApplyOps(context, init, inEnvVarFormat, params).value;
      var r := ApplyOps(context, ops, inEnvVarFormat, params).value;
      assert ApplyOp(context, last, inEnvVarFormat, m) == Ok(r);
      ApplyOpsEffect(context, init, inEnvVarFormat, params);
      forall i | 0 <= i < |ops| && Emits(context, ops[i])
        ensures Serialise(AttrOf(context, ops[i])).Ok?
        ensures VarName(ops[i].target, inEnvVarFormat) in r
        ensures r[VarName(ops[i].target, inEnvVarFormat)] == Serialise(AttrOf(context, ops[i])).value
      {
        if i < n {
          assert ops[i] == init[i];
          VarNameInjective(ops[i].target, last.target, inEnvVarFormat);
        }
      }
    }
  }

  /** A name no emitting built-in is exported under keeps its earlier entry, or its absence. */
  lemma {:induction false} ApplyOpsUntouched(context: map<string, PyValue>, ops: seq<Op>, inEnvVarFormat: bool, params: map<string, string>)
    requires ApplyOps(context, ops, inEnvVarFormat, params).Ok?
    ensures forall k :: k !in Written(context, ops, inEnvVarFormat) ==>
      (k in ApplyOps(context, ops, inEnvVarFormat, params).value <==> k in params)
      && (k in params ==> ApplyOps(context, ops, inEnvVarFormat, params).value[k] == params[k])
    decreases |ops|
  {
    if ops != [] {
      ApplyOpsUntouched(context, ops[..|ops| - 1], inEnvVarFormat, params);
    }
  }

  lemma OpsDistinct()
    ensures DistinctTargets(Ops)
  {
  }

  /** Every exported name carries the prefix of the chosen naming. */
  lemma ContextVarsKeysPrefixed(context: map<string, PyValue>, contextParams: seq<(PyValue, PyValue)>, inEnvVarFormat: bool)
    requires ContextVars(context, contextParams, inEnvVarFormat).Ok?
    ensures forall k :: k in ContextVars(context, contextParams, inEnvVarFormat).value ==> ModePrefix(inEnvVarFormat) <= k
  {
    UserParamsChecks(contextParams, inEnvVarFormat);
    UserParamsKeys(contextParams, inEnvVarFormat);
    var u := UserParams(contextParams, inEnvVarFormat).value;
    OpsDistinct();
    ApplyOpsEffect(context, Ops, inEnvVarFormat, u);
    ApplyOpsUntouched(context, Ops, inEnvVarFormat, u);
    forall k | k in ContextVars(context, contextParams, inEnvVarFormat).value
      ensures ModePrefix(inEnvVarFormat) <= k
    {
      WrittenMembers(context, Ops, inEnvVarFormat, k);
    }
  }

  /**
   * The export raises exactly when a hook pair is not (str, str) or an
   * exported list attribute holds a non-str item; a bad hook pair raises
   * first, naming the first such pair.
   */
  lemma ContextVarsErrors(context: map<string, PyValue>, contextParams: seq<(PyValue, PyValue)>, inEnvVarFormat: bool)
    ensures ContextVars(context, contextParams, inEnvVarFormat).Ok? <==>
      AllGood(contextParams) && forall i :: 0 <= i < |Ops| ==> ExportsCleanly(context, Ops[i])
    ensures !AllGood(contextParams) <==>
      ContextVars(context, contextParams, inEnvVarFormat).Err?
      && !ContextVars(context, contextParams, inEnvVarFormat).error.JoinItemNotString?
    ensures !AllGood(contextParams) ==>
      exists i :: 0 <= i < |contextParams| && !GoodPair(contextParams[i]) && AllGood(contextParams[..i])
                  && ContextVars(context, contextParams, inEnvVarFormat) == Err(PairErrorOf(contextParams[i]))
  {
    UserParamsChecks(contextParams, inEnvVarFormat);
    if !AllGood(contextParams) {
      UserParamsFirstError(contextParams, inEnvVarFormat);
    } else {
      var u := UserParams(contextParams, inEnvVarFormat).value;
      ApplyOpsFails(context, Ops, inEnvVarFormat, u);
      if ApplyOps(context, Ops, inEnvVarFormat, u).Err? {
        ApplyOpsFirstFailure(context, Ops, inEnvVarFormat, u);
      }
    }
  }

  /**
   * Built-ins are written after the hook pairs: an exported built-in holds
   * its serialised value even when a hook pair had the same name, and a
   * built-in that is not exported leaves its name as the hook pairs left it.
   */
  lemma ContextVarsBuiltins(context: map<string, PyValue>, contextParams: seq<(PyValue, PyValue)>, inEnvVarFormat: bool)
    requires ContextVars(context, contextParams, inEnvVarFormat).Ok?
    ensures UserParams(contextParams, inEnvVarFormat).Ok?
    ensures forall i :: 0 <= i < |Ops| && Emits(context, Ops[i]) ==>
      Serialise(AttrOf(context, Ops[i])).Ok?
      && VarName(Ops[i].target, inEnvVarFormat) in ContextVars(context, contextParams, inEnvVarFormat).value
      && ContextVars(context, contextParams, inEnvVarFormat).value[VarName(Ops[i].target, inEnvVarFormat)]
         == Serialise(AttrOf(context, Ops[i])).value
    ensures forall i :: 0 <= i < |Ops| && !Emits(context, Ops[i]) ==>
      var name := VarName(Ops[i].target, inEnvVarFormat);
      (name in ContextVars(context, contextParams, inEnvVarFormat).value <==> name in UserParams(contextParams, inEnvVarFormat).value)
      && (name in UserParams(contextParams, inEnvVarFormat).value ==>
          ContextVars(context, contextParams, inEnvVarFormat).value[name] == UserParams(contextParams, inEnvVarFormat).value[name])
  {
    var u := UserParams(contextParams, inEnvVarFormat).value;
    OpsDistinct();
    ApplyOpsEffect(context, Ops, inEnvVarFormat, u);
    ApplyOpsUntouched(context, Ops, inEnvVarFormat, u);
    forall i | 0 <= i < |Ops| && !Emits(context, Ops[i])
      ensures VarName(Ops[i].target, inEnvVarFormat) !in Written(context, Ops, inEnvVarFormat)
    {
      var name := VarName(Ops[i].target, inEnvVarFormat);
      WrittenMembers(context, Ops, inEnvVarFormat, name);
      if name in Written(context, Ops, inEnvVarFormat) {
        var i' :| 0 <= i' < |Ops| && Emits(context, Ops[i']) && VarName(Ops[i'].target, inEnvVarFormat) == name;
        VarNameInjective(Ops[i'].target, Ops[i].target, inEnvVarFormat);
      }
    }
  }

  /**
   * Without hook pairs, a built-in has an entry exactly when its subject and
   * attribute are both truthy: a missing, None, empty or zero value gives no key.
   */
  lemma ContextVarsWithoutHook(context: map<string, PyValue>, inEnvVarFormat: bool)
    requires ContextVars(context, [], inEnvVarFormat).Ok?
    ensures forall i :: 0 <= i < |Ops| ==>
      (VarName(Ops[i].target, inEnvVarFormat) in ContextVars(context, [], inEnvVarFormat).value <==> Emits(context, Ops[i]))
    ensures forall k :: k in ContextVars(context, [], inEnvVarFormat).value ==>
      exists i :: 0 <= i < |Ops| && Emits(context, Ops[i]) && VarName(Ops[i].target, inEnvVarFormat) == k
  {
    ContextVarsBuiltins(context, [], inEnvVarFormat);
    OpsDistinct();
    ApplyOpsEffect(context, Ops, inEnvVarFormat, map[]);
    ApplyOpsUntouched(context, Ops, inEnvVarFormat, map[]);
    forall k | k in ContextVars(context, [], inEnvVarFormat).value
      ensures exists i :: 0 <= i < |Ops| && Emits(context, Ops[i]) && VarName(Ops[i].target, inEnvVarFormat) == k
    {
      WrittenMembers(context, Ops, inEnvVarFormat, k);
    }
  }

  /**
   * A hook pair reaches the result, under its exported name and with its
   * value unchanged, unless a later pair or an exported built-in takes that name.
   */
  lemma ContextVarsUserPair(context: map<string, PyValue>, contextParams: seq<(PyValue, PyValue)>, inEnvVarFormat: bool, i: nat)
    requires ContextVars(context, contextParams, inEnvVarFormat).Ok?
    requires i < |contextParams|
    ensures AllGood(contextParams)
    ensures !OverriddenLater(contextParams, i, inEnvVarFormat)
            && (forall j :: 0 <= j < |Ops| && Emits(context, Ops[j]) ==>
                  VarName(Ops[j].target, inEnvVarFormat) != FinalKey(contextParams[i], inEnvVarFormat))
            ==> FinalKey(contextParams[i], inEnvVarFormat) in ContextVars(context, contextParams, inEnvVarFormat).value
                && ContextVars(context, contextParams, inEnvVarFormat).value[FinalKey(contextParams[i], inEnvVarFormat)]
                   == contextParams[i].1.s
  {
    UserParamsChecks(contextParams, inEnvVarFormat);
    var key := FinalKey(contextParams[i], inEnvVarFormat);
    if !OverriddenLater(contextParams, i, inEnvVarFormat) {
      UserParamsValues(contextParams, inEnvVarFormat, i);
      var u := UserParams(contextParams, inEnvVarFormat).value;
      OpsDistinct();
      ApplyOpsEffect(context, Ops, inEnvVarFormat, u);
      ApplyOpsUntouched(context, Ops, inEnvVarFormat, u);
      WrittenMembers(context, Ops, inEnvVarFormat, key);
    }
  }

  /** A worked example: a task owned by "alice", a task instance of dag "d1" at try 2. */
  function ExampleContext(): map<string, PyValue> {
    var task := Obj(map["owner" := Str("alice")], true, "<Task>");
    var ti := Obj(map["dag_id" := Str("d1"), "try_number" := Int(2)], true, "<TaskInstance>");
    map["task" := task, "task_instance" := ti]
  }

  /** What the example context holds for each built-in, in the order of `Ops`. */
  lemma ExampleAttrs()
    ensures !Emits(ExampleContext(), Ops[0])
    ensures Emits(ExampleContext(), Ops[1]) && AttrOf(ExampleContext(), Ops[1]) == Str("alice")
    ensures Emits(ExampleContext(), Ops[2]) && AttrOf(ExampleContext(), Ops[2]) == Str("d1")
    ensures !Emits(ExampleContext(), Ops[3]) && !Emits(ExampleContext(), Ops[4])
    ensures Emits(ExampleContext(), Ops[5]) && AttrOf(ExampleContext(), Ops[5]) == Int(2)
    ensures !Emits(ExampleContext(), Ops[6])
  {
  }

  /** What the example holds after the first `j` built-ins. */
  function ExampleAfter(inEnvVarFormat: bool, j: nat): map<string, string> {
    if j < 2 then map[]
    else if j < 3 then map[VarName(DagOwner, inEnvVarFormat) := "alice"]
    else if j < 6 then map[VarName(DagOwner, inEnvVarFormat) := "alice"][VarName(DagId, inEnvVarFormat) := "d1"]
    else map[VarName(DagOwner, inEnvVarFormat) := "alice"][VarName(DagId, inEnvVarFormat) := "d1"]
            [VarName(TryNumber, inEnvVarFormat) := "2"]
  }

  /** What the `k`-th built-in writes for the example context. */
  lemma ExampleStep(inEnvVarFormat: bool, k: nat)
    requires k < |Ops|
    ensures ApplyOp(ExampleContext(), Ops[k], inEnvVarFormat, ExampleAfter(inEnvVarFormat, k))
            == Ok(ExampleAfter(inEnvVarFormat, k + 1))
  {
    ExampleAttrs();
    if k == 1 {
      assert ExampleAfter(inEnvVarFormat, 2) == map[][VarName(DagOwner, inEnvVarFormat) := "alice"];
    } else if k == 5 {
      assert Serialise(Int(2)) == Ok("2") by {
        assert NatToDecimal(2) == "2";
      }
    }
  }

  lemma {:induction false} ExamplePrefix(inEnvVarFormat: bool, j: nat)
    requires j <= |Ops|
    ensures ApplyOps(ExampleContext(), Ops[..j], inEnvVarFormat, map[]) == Ok(ExampleAfter(inEnvVarFormat, j))
    decreases j
  {
    if j == 0 {
      assert Ops[..0] == [];
    } else {
      ExamplePrefix(inEnvVarFormat, j - 1);
      ExampleStep(inEnvVarFormat, j - 1);
      ApplyOpsPrefixStep(ExampleContext(), Ops, j - 1, inEnvVarFormat, map[], ExampleAfter(inEnvVarFormat, j - 1));
    }
  }

  lemma ExampleBuiltins(inEnvVarFormat: bool)
    ensures ApplyOps(ExampleContext(), Ops, inEnvVarFormat, map[])
            == Ok(map[VarName(DagOwner, inEnvVarFormat) := "alice"]
                     [VarName(DagId, inEnvVarFormat) := "d1"]
                     [VarName(TryNumber, inEnvVarFormat) := "2"])
  {
    ExamplePrefix(inEnvVarFormat, 7);
    assert Ops[..7] == Ops;
  }

  /** Without hook pairs the export is the built-ins written into an empty mapping. */
  lemma ContextVarsNoHook(context: map<string, PyValue>, inEnvVarFormat: bool)
    ensures ContextVars(context, [], inEnvVarFormat) == ApplyOps(context, Ops, inEnvVarFormat, map[])
  {
  }

  lemma ExampleNames()
    ensures VarName(DagOwner, false) == "airflow.ctx.dag_owner"
    ensures VarName(DagId, false) == "airflow.ctx.dag_id"
    ensures VarName(TryNumber, false) == "airflow.ctx.try_number"
    ensures VarName(DagOwner, true) == "AIRFLOW_CTX_DAG_OWNER"
    ensures VarName(DagId, true) == "AIRFLOW_CTX_DAG_ID"
    ensures VarName(TryNumber, true) == "AIRFLOW_CTX_TRY_NUMBER"
  {
  }

  /**
   * The worked example in the dotted naming: owner "alice", dag_id "d1"
   * and try_number 2 give three entries, the number written as "2".
   */
  lemma ContextVarsExampleDefault()
    ensures ContextVars(ExampleContext(), [], false)
            == Ok(map["airflow.ctx.dag_owner" := "alice", "airflow.ctx.dag_id" := "d1", "airflow.ctx.try_number" := "2"])
  {
    ContextVarsNoHook(ExampleContext(), false);
    ExampleBuiltins(false);
    ExampleNames();
  }

  /** The same example in the environment-variable naming. */
  lemma ContextVarsExampleEnv()
    ensures ContextVars(ExampleContext(), [], true)
            == Ok(map["AIRFLOW_CTX_DAG_OWNER" := "alice", "AIRFLOW_CTX_DAG_ID" := "d1", "AIRFLOW_CTX_TRY_NUMBER" := "2"])
  {
    ContextVarsNoHook(ExampleContext(), true);
    ExampleBuiltins(true);
    ExampleNames();
  }
}
