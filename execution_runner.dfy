/**
 * `ExecutionCallableRunner`: run a task's callable and, when it is a generator
 * function, drain what it yields into the task's outlet-event table.
 *
 * The table maps an asset or an asset alias to its accessor: the `extra`
 * mapping (updated with `dict.update`) and the alias events `add` appended.
 * Indexing it with a key it does not hold yet creates an empty accessor.
 */
module ExecutionRunner {
  import opened Wrappers

  datatype Asset = Asset(name: string, uri: string)

  datatype AssetAlias = AssetAlias(name: string)

  /** The table is indexed by assets and by aliases. */
  datatype EventKey = AssetKey(asset: Asset) | AliasKey(alias: AssetAlias)

  /** What `add(asset, extra=...)` records on an alias's accessor. */
  datatype AliasEvent<X> = AliasEvent(asset: Asset, extra: map<string, X>)

  datatype Accessor<X> = Accessor(extra: map<string, X>, aliasEvents: seq<AliasEvent<X>>)

  /** A value the generator yields: asset `Metadata`, or anything else (by its type name). */
  datatype Yielded<X> =
    | Metadata(asset: Asset, extra: map<string, X>, alias: Option<AssetAlias>)
    | Unknown(typeName: string)

  /** How a call ends: with a return value or with an exception that propagates. */
  datatype Outcome<R> = Returned(value: R) | Raised(error: string)

  /**
   * The wrapped callable, applied to the arguments `run` forwards: a plain
   * function, or a generator function with what it yields, in order, before
   * it returns or raises.
   */
  datatype ExecutionCallable<R, X> =
    | SingleShot(outcome: Outcome<R>)
    | GeneratorFunction(yielded: seq<Yielded<X>>, outcome: Outcome<R>)

  function YieldedBy<R, X>(func: ExecutionCallable<R, X>): seq<Yielded<X>> {
    if func.GeneratorFunction? then func.yielded else []
  }

  function Lookup<X>(table: map<EventKey, Accessor<X>>, key: EventKey): Accessor<X> {
    if key in table then table[key] else Accessor(map[], [])
  }

  /** `outlet_events`: the accessor table the runner updates in place. */
  class OutletEventAccessors<X> {
    var accessors: map<EventKey, Accessor<X>>

    constructor(initial: map<EventKey, Accessor<X>>)
      ensures accessors == initial
    {
      accessors := initial;
    }

    /** `outlet_events[key]`, an empty accessor when the key is new. */
    function Get(key: EventKey): Accessor<X>
      reads this
    {
      Lookup(accessors, key)
    }

    /** `outlet_events[key].extra.update(extra)`: later values win. */
    method UpdateExtra(key: EventKey, extra: map<string, X>)
      modifies this
      ensures accessors == old(accessors)[key := Accessor(old(Get(key)).extra + extra, old(Get(key)).aliasEvents)]
    {
      var accessor := Get(key);
      accessors := accessors[key := accessor.(extra := accessor.extra + extra)];
    }

    /** `outlet_events[key].add(asset, extra=extra)`: one more alias event. */
    method Add(key: EventKey, asset: Asset, extra: map<string, X>)
      modifies this
      ensures accessors == old(accessors)[key := Accessor(old(Get(key)).extra, old(Get(key)).aliasEvents + [AliasEvent(asset, extra)])]
    {
      var accessor := Get(key);
      accessors := accessors[key := accessor.(aliasEvents := accessor.aliasEvents + [AliasEvent(asset, extra)])];
    }
  }

  // ---------------------------------------------------------------------------
  // The table after draining a sequence of yielded values

  /** One loop iteration: a `Metadata` updates its asset, then its alias if it has one. */
  function ApplyYield<X>(table: map<EventKey, Accessor<X>>, y: Yielded<X>): (r: map<EventKey, Accessor<X>>)
    ensures r.Keys == table.Keys + TouchedBy(y)
    ensures forall key :: key in table && key !in TouchedBy(y) ==> r[key] == table[key]
  {
    match y
    case Unknown(_) => table
    case Metadata(asset, extra, alias) =>
      var a := Lookup(table, AssetKey(asset));
      var updated := table[AssetKey(asset) := Accessor(a.extra + extra, a.aliasEvents)];
      if alias.None? then updated
      else
        var b := Lookup(updated, AliasKey(alias.value));
        updated[AliasKey(alias.value) := Accessor(b.extra, b.aliasEvents + [AliasEvent(asset, extra)])]
  }

  /** The table after the loop has consumed `ys`; it keeps every key and adds exactly those the metadata names. */
  function Drain<X>(table: map<EventKey, Accessor<X>>, ys: seq<Yielded<X>>): (r: map<EventKey, Accessor<X>>)
    ensures r.Keys == table.Keys + Touched(ys)
    decreases |ys|
  {
    if ys == [] then table else ApplyYield(Drain(table, ys[..|ys| - 1]), ys[|ys| - 1])
  }

  /** `ExecutionCallableRunner(func, outlet_events, logger=...)` and its `run`. */
  class ExecutionCallableRunner<R, X> {
    const func: ExecutionCallable<R, X>
    const outletEvents: OutletEventAccessors<X>

    constructor(func: ExecutionCallable<R, X>, outletEvents: OutletEventAccessors<X>)
      ensures this.func == func && this.outletEvents == outletEvents
    {
      this.func := func;
      this.outletEvents := outletEvents;
    }

    /**
     * Call the function. A generator is exhausted first and every value it
     * yielded is folded into the table; what the call returns or raises is
     * the outcome of `run`.
     */
    method Run() returns (r: Outcome<R>)
      modifies outletEvents
      ensures r == func.outcome
      ensures outletEvents.accessors == Drain(old(outletEvents.accessors), YieldedBy(func))
    {
      if func.SingleShot? {
        return func.outcome;
      }
      var yielded := func.yielded;
      var i := 0;
      while i < |yielded|
        invariant 0 <= i <= |yielded|
        invariant outletEvents.accessors == Drain(old(outletEvents.accessors), yielded[..i])
      {
        var metadata := yielded[i];
        if metadata.Metadata? {
          outletEvents.UpdateExtra(AssetKey(metadata.asset), metadata.extra);
          if metadata.alias.Some? {
            outletEvents.Add(AliasKey(metadata.alias.value), metadata.asset, metadata.extra);
          }
        }
        assert yielded[..i + 1][..i] == yielded[..i];
        i := i + 1;
      }
      assert yielded[..i] == yielded;
      return func.outcome;
    }
  }

  // ---------------------------------------------------------------------------
  // What the table holds after draining, key by key

  /** What one yielded value merges into the `extra` of `key`. */
  function ExtraStep<X>(y: Yielded<X>, key: EventKey): map<string, X> {
    if y.Metadata? && key == AssetKey(y.asset) then y.extra else map[]
  }

  /** The alias events one yielded value adds to `key`. */
  function EventStep<X>(y: Yielded<X>, key: EventKey): seq<AliasEvent<X>> {
    if y.Metadata? && y.alias.Some? && key == AliasKey(y.alias.value) then [AliasEvent(y.asset, y.extra)] else []
  }

  /** The extras yielded for the asset `key`, merged in order. */
  function ExtrasFor<X>(ys: seq<Yielded<X>>, key: EventKey): (r: map<string, X>)
    ensures key.AliasKey? ==> r == map[]
    decreases |ys|
  {
    if ys == [] then map[] else ExtrasFor(ys[..|ys| - 1], key) + ExtraStep(ys[|ys| - 1], key)
  }

  /** The alias events yielded for the alias `key`, in order. */
  function EventsFor<X>(ys: seq<Yielded<X>>, key: EventKey): (r: seq<AliasEvent<X>>)
    ensures key.AssetKey? ==> r == []
    decreases |ys|
  {
    if ys == [] then [] else EventsFor(ys[..|ys| - 1], key) + EventStep(ys[|ys| - 1], key)
  }

  /** The keys a yielded value makes the table hold. */
  function TouchedBy<X>(y: Yielded<X>): set<EventKey> {
    if y.Unknown? then {}
    else if y.alias.None? then {AssetKey(y.asset)}
    else {AssetKey(y.asset), AliasKey(y.alias.value)}
  }

  function Touched<X>(ys: seq<Yielded<X>>): set<EventKey>
    decreases |ys|
  {
    if ys == [] then {} else Touched(ys[..|ys| - 1]) + TouchedBy(ys[|ys| - 1])
  }

  /**
   * Each accessor after draining is the one before, its `extra` updated with
   * the extras yielded for it and the alias events added to it appended: an
   * asset's alias events and an alias's `extra` are left as they were.
   */
  lemma {:induction false} DrainLookup<X>(table: map<EventKey, Accessor<X>>, ys: seq<Yielded<X>>, key: EventKey)
    ensures Lookup(Drain(table, ys), key)
         == Accessor(Lookup(table, key).extra + ExtrasFor(ys, key),
                     Lookup(table, key).aliasEvents + EventsFor(ys, key))
    decreases |ys|
  {
    var before := Lookup(table, key);
    if ys == [] {
      assert before.extra + map[] == before.extra;
      assert before.aliasEvents + [] == before.aliasEvents;
    } else {
      var init := ys[..|ys| - 1];
      var y := ys[|ys| - 1];
      DrainLookup(table, init, key);
      ApplyYieldLookup(Drain(table, init), y, key);
      MergeAssociative(before.extra, ExtrasFor(init, key), ExtraStep(y, key));
      assert (before.aliasEvents + EventsFor(init, key)) + EventStep(y, key)
          == before.aliasEvents + (EventsFor(init, key) + EventStep(y, key));
    }
  }

  /** `dict.update` twice is one update with the merged mapping. */
  lemma MergeAssociative<X>(a: map<string, X>, b: map<string, X>, c: map<string, X>)
    ensures (a + b) + c == a + (b + c)
  {
  }

  lemma ApplyYieldLookup<X>(table: map<EventKey, Accessor<X>>, y: Yielded<X>, key: EventKey)
    ensures Lookup(ApplyYield(table, y), key)
         == Accessor(Lookup(table, key).extra + ExtraStep(y, key),
                     Lookup(table, key).aliasEvents + EventStep(y, key))
  {
  }

  /** Draining in two stretches is draining the whole sequence. */
  lemma {:induction false} DrainAppend<X>(table: map<EventKey, Accessor<X>>, xs: seq<Yielded<X>>, ys: seq<Yielded<X>>)
    ensures Drain(table, xs + ys) == Drain(Drain(table, xs), ys)
    decreases |ys|
  {
    if ys == [] {
      assert xs + ys == xs;
    } else {
      assert (xs + ys)[..|xs + ys| - 1] == xs + ys[..|ys| - 1];
      DrainAppend(table, xs, ys[..|ys| - 1]);
    }
  }

  /** Values that are not `Metadata` never change the table. */
  lemma {:induction false} DrainIgnoresUnknown<X>(table: map<EventKey, Accessor<X>>, ys: seq<Yielded<X>>)
    requires forall i :: 0 <= i < |ys| ==> ys[i].Unknown?
    ensures Drain(table, ys) == table
    decreases |ys|
  {
    if ys != [] {
      DrainIgnoresUnknown(table, ys[..|ys| - 1]);
    }
  }
}
