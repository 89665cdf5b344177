/**
  The Python values an annotation is checked against, and the `isinstance`
  test the checker uses on them.

  Only the shapes the checker distinguishes are kept: scalars, the two
  sequence containers (list and tuple), dicts, and instances of user classes.
  The class hierarchy is abstract: builtin classes, with `bool` a subclass of
  `int` and every class a subclass of `object`, plus user classes that form a
  single-inheritance chain ending at `object`.
 */
module PyValues {

  /** The two sequence containers the checker treats alike. */
  datatype SeqKind = List | Tuple

  /** A user-defined class: either derived directly from `object`, or from another user class. */
  datatype UserClass = Root(name: string) | Derived(name: string, base: UserClass)

  /** A Python class that can stand in an annotation or be the type of a value. */
  datatype Class =
    | ObjectC
    | IntC
    | BoolC
    | FloatC
    | StrC
    | NoneTypeC
    | ListC
    | TupleC
    | DictC
    | UserC(u: UserClass)

  /**
    A Python value. A dict is the sequence of its (key, value) items in
    iteration order, which is the order the checker visits them in. Python
    keeps dict keys distinct; the checker never relies on that, so the
    model does not require it.
   */
  datatype Value =
    | IntV(i: int)
    | BoolV(b: bool)
    | FloatV(r: real)
    | StrV(s: string)
    | NoneV
    | SeqV(kind: SeqKind, items: seq<Value>)
    | DictV(entries: seq<(Value, Value)>)
    | Instance(cls: UserClass)

  /** The class of a sequence container of the given kind. */
  function KindClass(kind: SeqKind): (c: Class)
    ensures c == ListC <==> kind == List
    ensures c == TupleC <==> kind == Tuple
  {
    match kind
    case List => ListC
    case Tuple => TupleC
  }

  /** `type(v)`: the exact class of a value. */
  function TypeOf(v: Value): (c: Class)
    ensures c != ObjectC
    ensures (c == ListC || c == TupleC) <==> v.SeqV?
    ensures c == DictC <==> v.DictV?
    ensures c.UserC? <==> v.Instance?
  {
    match v
    case IntV(_) => IntC
    case BoolV(_) => BoolC
    case FloatV(_) => FloatC
    case StrV(_) => StrC
    case NoneV => NoneTypeC
    case SeqV(kind, _) => KindClass(kind)
    case DictV(_) => DictC
    case Instance(u) => UserC(u)
  }

  /** `issubclass(UserC(u), d)`: `d` is `object`, the class itself or one of its bases. */
  predicate UserSubclass(u: UserClass, d: Class)
  {
    || d == ObjectC
    || d == UserC(u)
    || (u.Derived? && UserSubclass(u.base, d))
  }

  /** `issubclass(c, d)`. */
  predicate IsSubclass(c: Class, d: Class)
    ensures c == d ==> IsSubclass(c, d)
    ensures d == ObjectC ==> IsSubclass(c, d)
    ensures c == ObjectC ==> (IsSubclass(c, d) <==> d == ObjectC)
  {
    match c
    case UserC(u) => UserSubclass(u, d)
    case _ => d == ObjectC || c == d || (c == BoolC && d == IntC)
  }

  /** `isinstance(v, c)`. */
  predicate IsInstance(v: Value, c: Class)
    ensures c == TypeOf(v) ==> IsInstance(v, c)
    ensures c == ObjectC ==> IsInstance(v, c)
    ensures v.BoolV? && c == IntC ==> IsInstance(v, c)
  {
    IsSubclass(TypeOf(v), c)
  }

  /** A user class is never a subclass of a builtin class other than `object`. */
  lemma {:induction false} UserClassNotBuiltin(u: UserClass, d: Class)
    requires d != ObjectC && !d.UserC?
    ensures !IsSubclass(UserC(u), d)
  {
    match u
    case Root(_) =>
    case Derived(_, b) => UserClassNotBuiltin(b, d);
  }

  /**
    A value is an instance of a container class exactly when it is a container
    of that kind: a schema's container test admits no other value.
   */
  lemma ContainerInstance(v: Value, kind: SeqKind)
    ensures IsInstance(v, KindClass(kind)) <==> v.SeqV? && v.kind == kind
    ensures IsInstance(v, DictC) <==> v.DictV?
  {
    if v.Instance? {
      UserClassNotBuiltin(v.cls, KindClass(kind));
      UserClassNotBuiltin(v.cls, DictC);
    }
  }

  /** `issubclass` is transitive along a user class's chain of bases. */
  lemma {:induction false} UserSubclassTransitive(u: UserClass, b: Class, c: Class)
    requires UserSubclass(u, b) && IsSubclass(b, c)
    ensures UserSubclass(u, c)
  {
    if b == UserC(u) || c == ObjectC {
    } else if u.Derived? && UserSubclass(u.base, b) {
      UserSubclassTransitive(u.base, b, c);
    }
  }

  /** `issubclass` is transitive, so `isinstance` follows the hierarchy upwards. */
  lemma SubclassTransitive(a: Class, b: Class, c: Class)
    requires IsSubclass(a, b) && IsSubclass(b, c)
    ensures IsSubclass(a, c)
  {
    if a.UserC? {
      UserSubclassTransitive(a.u, b, c);
    }
  }

  /** An instance of a class is an instance of each of its superclasses. */
  lemma InstanceUpwards(v: Value, c: Class, d: Class)
    requires IsInstance(v, c) && IsSubclass(c, d)
    ensures IsInstance(v, d)
  {
    SubclassTransitive(TypeOf(v), c, d);
  }
}
