/**
  `MultiTypeAsyncLru`: one `AsyncLru` whose keys and values are type-erased. A `TypeId` is a
  number; `valueType` is the association `LruKey::Value` from key types to value types.
 */
module MultiTypeLru {
  import opened Prelude
  import opened AsyncLru

  datatype GenericKey<P(==)> = GenericKey(typeId: nat, payload: P)

  datatype AnyValue<D(==)> = AnyValue(typeId: nat, data: D)

  function DowncastKey<P>(k: GenericKey<P>, typeId: nat): Option<P> {
    if k.typeId == typeId then Some(k.payload) else None
  }

  // Equality of boxed keys: downcast the other key to this key's type, then compare.
  predicate KeyEq<P(==)>(a: GenericKey<P>, b: GenericKey<P>) {
    match DowncastKey(b, a.typeId)
    case Some(p) => a.payload == p
    case None => false
  }

  // So the cache, which compares keys with `==`, compares them as the source does.
  lemma KeyEqIsEquality<P>(a: GenericKey<P>, b: GenericKey<P>)
    ensures KeyEq(a, b) <==> a == b
  {
  }

  // The downcast at the end of `get`.
  function Downcast<D>(v: AnyValue<D>, typeId: nat): Result<D> {
    if v.typeId == typeId then Ok(v.data) else Err
  }

  lemma DowncastIff<D>(v: AnyValue<D>, typeId: nat)
    ensures Downcast(v, typeId).Ok? <==> v.typeId == typeId
    ensures Downcast(v, typeId).Ok? ==> Downcast(v, typeId).value == v.data
  {
  }

  // `get` hands `get_and_prepopulate` a one-entry map for its own key, whose value the Rust
  // types force to be of the key's value type.
  ghost predicate TypedStep<P, D>(
    s: State<GenericKey<P>, AnyValue<D>>, e: Event<GenericKey<P>, AnyValue<D>>, valueType: nat -> nat)
  {
    e.Generated? && e.chan < |s.keys| ==>
      && |e.values| == 1
      && KeyEq(s.keys[e.chan], e.values[0].0)
      && (e.values[0].1.Ok? ==> e.values[0].1.value.typeId == valueType(s.keys[e.chan].typeId))
  }

  ghost predicate TypedRun<P, D>(
    s: State<GenericKey<P>, AnyValue<D>>, es: seq<Event<GenericKey<P>, AnyValue<D>>>, valueType: nat -> nat)
    decreases |es|
  {
    es == [] || (Enabled(s, es[0]) && TypedStep(s, es[0], valueType) && TypedRun(Next(s, es[0]), es[1..], valueType))
  }

  ghost predicate TypedPairs<P, D>(pairs: set<(GenericKey<P>, AnyValue<D>)>, valueType: nat -> nat) {
    forall p :: p in pairs ==> p.1.typeId == valueType(p.0.typeId)
  }

  lemma StepTyped<P, D>(
    s: State<GenericKey<P>, AnyValue<D>>, e: Event<GenericKey<P>, AnyValue<D>>, valueType: nat -> nat)
    requires Numbered(s) && TypedPairs(s.produced, valueType) && Enabled(s, e) && TypedStep(s, e, valueType)
    ensures TypedPairs(Next(s, e).produced, valueType)
  {
    if e.Generated? {
      forall p | p in Produced(e.values) ensures p.1.typeId == valueType(p.0.typeId) {
        var i :| 0 <= i < |e.values| && e.values[i].1.Ok? && p == (e.values[i].0, e.values[i].1.value);
      }
    } else {
      assert Next(s, e).produced == s.produced;
    }
  }

  lemma {:induction false} RunTyped<P(!new), D>(
    s: State<GenericKey<P>, AnyValue<D>>, es: seq<Event<GenericKey<P>, AnyValue<D>>>, valueType: nat -> nat)
    requires Invariant(s) && TypedPairs(s.produced, valueType) && TypedRun(s, es, valueType)
    ensures Run(s, es) && TypedPairs(After(s, es).produced, valueType)
    decreases |es|
  {
    if es != [] {
      StepInvariant(s, es[0]);
      StepTyped(s, es[0], valueType);
      RunTyped(Next(s, es[0]), es[1..], valueType);
    }
  }

  /** Whatever is handed to a caller asking for `k` passes the downcast, in every run. */
  lemma DowncastNeverFails<P(!new), D>(
    s: State<GenericKey<P>, AnyValue<D>>, es: seq<Event<GenericKey<P>, AnyValue<D>>>, valueType: nat -> nat)
    requires Invariant(s) && Provenance(s) && TypedPairs(s.produced, valueType)
    requires TypedRun(s, es, valueType)
    ensures Run(s, es)
    ensures forall p :: p in After(s, es).delivered ==>
                          Downcast(p.1, valueType(p.0.typeId)) == Ok(p.1.data)
  {
    RunTyped(s, es, valueType);
    DeliveredWasProduced(s, es);
  }
}
