/** Values as the engine receives, stores and hands them back.

    The engine stores return values type-erased (as Swift's `Any`) and hands
    them back as an optional of the requested type. Here a stored value is a
    `Boxed<V>` that carries its dynamic type tag explicitly, and a value that
    is itself an optional says so, so that neither a runtime cast nor
    reflection is needed. `V` is the universe of plain values and is left
    abstract. */
module Values {

  datatype Option<+T> = None | Some(value: T)

  /** The dynamic type of a stored value, or the type `T` a caller asks for;
      `AnyType` is Swift's `Any`, to which every value conforms. */
  datatype TypeTag = AnyType | Named(name: string)

  /** A return value stored as `Any`: either a non-optional value, or an
      optional (with or without a payload) of the tagged type. */
  datatype Boxed<V> =
    | Plain(tag: TypeTag, value: V)
    | Optional(tag: TypeTag, payload: Option<V>)

  /** Can the stored value be read as a `T`? Every value can be read as
      `Any`; otherwise the tag must match, and an optional without a payload
      cannot be read as a value of its wrapped type. */
  predicate Conforms<V>(b: Boxed<V>, t: TypeTag)
  {
    t == AnyType || (b.tag == t && !(b.Optional? && b.payload.None?))
  }

  /** The conditional cast `queue as? [T]`: it succeeds exactly when every
      element can be read as a `T`, and then yields the queue itself. */
  function CastQueue<V>(q: seq<Boxed<V>>, t: TypeTag): (r: Option<seq<Boxed<V>>>)
    ensures r.Some? <==> forall i :: 0 <= i < |q| ==> Conforms(q[i], t)
    ensures r.Some? ==> r.value == q
  {
    if forall i :: 0 <= i < |q| ==> Conforms(q[i], t) then Some(q) else None
  }

  /** `unwrap`: a non-optional value is its own content; an optional yields
      its payload, if it has one. */
  function Unwrap<V>(b: Boxed<V>): (r: Option<V>)
    ensures r.None? <==> b.Optional? && b.payload.None?
    ensures b.Plain? ==> r == Some(b.value)
    ensures b.Optional? ==> r == b.payload
  {
    match b
    case Plain(_, v) => Some(v)
    case Optional(_, p) => p
  }

  /** `getUnwrappedReturnValue`: the stored value itself, unless it is an
      optional without a payload, which reads as absent. */
  function UnwrappedReturnValue<V>(b: Boxed<V>): (r: Option<Boxed<V>>)
    ensures r.None? <==> b.Optional? && b.payload.None?
    ensures r.Some? ==> r.value == b
  {
    if Unwrap(b).Some? then Some(b) else None
  }

  /** The renderings the engine borrows from the host language, left abstract:
      `key` is `Array.description` of a parameter list (the argument key),
      `show` the interpolation of a present parameter, `showList` the
      interpolation of a list of rendered parameters, and `showQueue` the
      interpolation of a queue of stubbed values. */
  datatype Renderer<!V> = Renderer(
    key: seq<V> -> string,
    show: V -> string,
    showList: seq<string> -> string,
    showQueue: seq<Boxed<V>> -> string)
}
