/**
 * Which keyword arguments a callable receives (`KeywordParameters.determine`
 * and `determine_kwargs`). The callable's signature is given as its declared
 * parameters, in order, each with its kind; only the number of positional
 * arguments matters, not their values.
 */
module KeywordArgs {
  import opened Wrappers

  /** The kinds `inspect.Parameter` distinguishes. */
  datatype ParamKind = PositionalOnly | PositionalOrKeyword | VarPositional | KeywordOnly | VarKeyword

  datatype Parameter = Parameter(name: string, kind: ParamKind)

  /** The wrapper around the mapping the callable is given. */
  datatype KeywordParameters<V> = KeywordParameters(kwargs: map<string, V>) {
    /** The mapping, to be unpacked with `**` in the call, exactly as it was stored. */
    function Unpacking(): (r: map<string, V>)
      ensures KeywordParameters(r) == this
    {
      kwargs
    }
  }

  /** The ValueError raised for a name given both positionally and as a keyword. */
  datatype DetermineError = ReservedKey(name: string)

  function ParameterNames(signature: seq<Parameter>): set<string> {
    set p | p in signature :: p.name
  }

  /** The callable declares `**kwargs`. */
  function HasWildcardKwargs(signature: seq<Parameter>): (r: bool)
    ensures r <==> exists p :: p in signature && p.kind == VarKeyword
  {
    exists i :: 0 <= i < |signature| && signature[i].kind == VarKeyword
  }

  /**
   * A parameter filled positionally whose name is also a keyword argument.
   * Keyword-only parameters and `**kwargs` cannot be filled positionally and
   * are not checked.
   */
  predicate Collides<V>(p: Parameter, kwargs: map<string, V>) {
    p.kind != KeywordOnly && p.kind != VarKeyword && p.name in kwargs
  }

  /** The check loop over the parameters filled positionally: the first that collides. */
  function FirstCollision<V>(params: seq<Parameter>, kwargs: map<string, V>): (r: Option<nat>)
    ensures r.Some? ==> r.value < |params| && Collides(params[r.value], kwargs)
                        && forall j :: 0 <= j < r.value ==> !Collides(params[j], kwargs)
    ensures r.None? ==> forall j :: 0 <= j < |params| ==> !Collides(params[j], kwargs)
    decreases |params|
  {
    if params == [] then None
    else if Collides(params[0], kwargs) then Some(0)
    else
      match FirstCollision(params[1..], kwargs)
      case None => None
      case Some(i) => Some(i + 1)
  }

  /** The parameters `len(args)` positional arguments fill. */
  function Positional(signature: seq<Parameter>, nargs: nat): (r: seq<Parameter>)
    ensures |r| <= |signature| && |r| <= nargs
    ensures |r| == nargs || |r| == |signature|
    ensures forall i :: 0 <= i < |r| ==> r[i] == signature[i]
  {
    signature[..if nargs < |signature| then nargs else |signature|]
  }

  /**
   * `KeywordParameters.determine(func, args, kwargs)`: the collision check
   * first, then everything for a callable with `**kwargs`, otherwise only the
   * keyword arguments the signature names.
   */
  function Determine<V>(signature: seq<Parameter>, nargs: nat, kwargs: map<string, V>)
    : (r: Result<KeywordParameters<V>, DetermineError>)
    ensures r.Err? <==> exists i :: 0 <= i < |signature| && i < nargs && Collides(signature[i], kwargs)
    ensures r.Err? ==> exists i :: 0 <= i < |signature| && i < nargs && Collides(signature[i], kwargs)
                                   && (forall j :: 0 <= j < i ==> !Collides(signature[j], kwargs))
                                   && r.error == ReservedKey(signature[i].name)
    ensures r.Ok? && HasWildcardKwargs(signature) ==> r.value.kwargs == kwargs
    ensures r.Ok? && !HasWildcardKwargs(signature) ==>
      && r.value.kwargs.Keys == kwargs.Keys * ParameterNames(signature)
      && forall key :: key in r.value.kwargs ==> r.value.kwargs[key] == kwargs[key]
  {
    var positional := Positional(signature, nargs);
    match FirstCollision(positional, kwargs)
    case Some(i) => Err(ReservedKey(positional[i].name))
    case None =>
      if HasWildcardKwargs(signature) then Ok(KeywordParameters(kwargs))
      else Ok(KeywordParameters(map key | key in ParameterNames(signature) && key in kwargs :: kwargs[key]))
  }

  /**
   * `determine_kwargs(func, args, kwargs)`: the mapping to pass. It is a
   * sub-map of `kwargs` and holds only names the signature declares,
   * positional-only and `*args` names included.
   */
  function DetermineKwargs<V>(signature: seq<Parameter>, nargs: nat, kwargs: map<string, V>)
    : (r: Result<map<string, V>, DetermineError>)
    ensures r.Err? <==> exists i :: 0 <= i < |signature| && i < nargs && Collides(signature[i], kwargs)
    ensures r.Err? ==> exists i :: 0 <= i < |signature| && i < nargs && Collides(signature[i], kwargs)
                                   && (forall j :: 0 <= j < i ==> !Collides(signature[j], kwargs))
                                   && r.error == ReservedKey(signature[i].name)
    ensures r.Ok? && HasWildcardKwargs(signature) ==> r.value == kwargs
    ensures r.Ok? ==> forall key :: key in r.value ==> key in kwargs && r.value[key] == kwargs[key]
    ensures r.Ok? ==> forall key :: key in r.value ==> key in ParameterNames(signature) || HasWildcardKwargs(signature)
    ensures r.Ok? ==> forall key :: key in kwargs && key in ParameterNames(signature) ==> key in r.value
  {
    match Determine(signature, nargs, kwargs)
    case Ok(parameters) => Ok(parameters.Unpacking())
    case Err(e) => Err(e)
  }

  /** Filtering what was already filtered changes nothing. */
  lemma DetermineKwargsIdempotent<V>(signature: seq<Parameter>, nargs: nat, kwargs: map<string, V>)
    requires DetermineKwargs(signature, nargs, kwargs).Ok?
    ensures var passed := DetermineKwargs(signature, nargs, kwargs).value;
            DetermineKwargs(signature, nargs, passed) == Ok(passed)
  {
    var passed := DetermineKwargs(signature, nargs, kwargs).value;
    forall i | 0 <= i < |signature| && i < nargs
      ensures !Collides(signature[i], passed)
    {
      assert !Collides(signature[i], kwargs);
    }
    var again := DetermineKwargs(signature, nargs, passed);
    assert again.Ok?;
    if !HasWildcardKwargs(signature) {
      assert forall key :: key in passed ==> key in ParameterNames(signature);
      assert again.value.Keys == passed.Keys;
      forall key | key in passed
        ensures again.value[key] == passed[key]
      {
        assert key in Determine(signature, nargs, passed).value.kwargs;
      }
      assert again.value == passed;
    }
  }
}
