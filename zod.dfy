/**
 * The fragment of zod's type language that the column derivation of
 * lib/schema.ts inspects, and the `unwrap` helper that strips optional and
 * nullable wrappers off a field type.
 */
module Zod {

  /** A zod field type, reduced to the tags `schemaToColumns` tests with `instanceof`. */
  datatype ZType =
    | ZString(hasDatetimeCheck: bool)   // z.string(), with or without a .datetime() check
    | ZNumber                           // z.number()
    | ZBoolean                          // z.boolean()
    | ZArray(elem: ZType)               // z.array(elem)
    | ZOptional(inner: ZType)           // t.optional()
    | ZNullable(inner: ZType)           // t.nullable()
    | ZOther                            // any other zod type (objects, enums, ...)

  /** True of the two wrapper kinds that `unwrap` looks through. */
  predicate IsWrapper(t: ZType) {
    t.ZOptional? || t.ZNullable?
  }

  /** The type left once every optional/nullable layer is stripped. */
  function Unwrapped(t: ZType): (b: ZType)
    ensures !IsWrapper(b)
    ensures !IsWrapper(t) ==> b == t
  {
    match t
    case ZOptional(inner) => Unwrapped(inner)
    case ZNullable(inner) => Unwrapped(inner)
    case _ => t
  }

  /** `unwrap(def)`: walks down `_def.innerType` while the current type is a wrapper. */
  method Unwrap(def: ZType) returns (current: ZType)
    ensures !IsWrapper(current)
    ensures current == Unwrapped(def)
  {
    current := def;
    while current.ZOptional? || current.ZNullable?
      invariant Unwrapped(current) == Unwrapped(def)
      decreases current
    {
      current := current.inner;
    }
  }

  /** One wrapper layer, as written after a type: `.optional()` or `.nullable()`. */
  datatype Layer = Optional | Nullable

  /** Wraps `base` in `layers`, the first layer outermost. */
  function Wrap(layers: seq<Layer>, base: ZType): (t: ZType)
    ensures layers == [] ==> t == base
    ensures layers != [] ==> IsWrapper(t)
  {
    if layers == [] then base
    else if layers[0] == Optional then ZOptional(Wrap(layers[1..], base))
    else ZNullable(Wrap(layers[1..], base))
  }

  /** The wrapper layers of `t`, outermost first. */
  function Layers(t: ZType): seq<Layer> {
    match t
    case ZOptional(inner) => [Optional] + Layers(inner)
    case ZNullable(inner) => [Nullable] + Layers(inner)
    case _ => []
  }

  /** Unwrapping never yields a wrapper, so a second unwrap changes nothing. */
  lemma UnwrappedIdempotent(t: ZType)
    ensures !IsWrapper(Unwrapped(t))
    ensures Unwrapped(Unwrapped(t)) == Unwrapped(t)
  {
  }

  /** Every type is its unwrapped base inside its own layers. */
  lemma {:induction false} WrapLayers(t: ZType)
    ensures Wrap(Layers(t), Unwrapped(t)) == t
  {
    match t
    case ZOptional(inner) =>
      WrapLayers(inner);
      assert ([Optional] + Layers(inner))[1..] == Layers(inner);
    case ZNullable(inner) =>
      WrapLayers(inner);
      assert ([Nullable] + Layers(inner))[1..] == Layers(inner);
    case _ =>
  }

  /**
   * Any stack of optional/nullable layers around a non-wrapper base unwraps
   * to that base, and the layers are recovered exactly.
   */
  lemma {:induction false} UnwrapWrap(layers: seq<Layer>, base: ZType)
    requires !IsWrapper(base)
    ensures Unwrapped(Wrap(layers, base)) == base
    ensures Layers(Wrap(layers, base)) == layers
  {
    if layers != [] {
      UnwrapWrap(layers[1..], base);
      assert [layers[0]] + layers[1..] == layers;
    }
  }
}
