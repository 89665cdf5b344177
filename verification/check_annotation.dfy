/**
  The recursive annotation checker: `Check_Annotation.check` with its local
  helpers for lists/tuples and dicts, and the two composite annotations
  `Check_All_OK` (every sub-annotation must hold, the first failure is
  propagated unchanged) and `Check_Any_OK` (at least one must hold).

  A Python exception raised by a failing `assert` becomes a `Fail` outcome
  carrying a `Violation`: the kind of failure, the parameter being checked
  and, where the message has one, the check history (the trail of steps the
  recursion took to get there). Message text is not modelled.
 */
module CheckAnnotation {
  import opened PyValues

  /**
    An annotation. Python distinguishes them by their runtime shape:
    `None`, a class, a list or tuple of annotations, a dict of annotations,
    or an object with `__check_annotation__`; of the latter, the two combinator
    classes are modelled. `Unrecognized` stands for any other object, which
    has no `__check_annotation__` to call.
   */
  datatype Schema =
    | NoCheck                                   // None
    | Type(cls: Class)                          // a plain class
    | Sequence(kind: SeqKind, elems: seq<Schema>) // [a] / (a,) or [a, b, ...] / (a, b, ...)
    | Mapping(entries: seq<(Schema, Schema)>)   // {k: v}, as its items (keys distinct in Python, not required here)
    | AllOK(subs: seq<Schema>)                  // Check_All_OK(*subs)
    | AnyOK(subs: seq<Schema>)                  // Check_Any_OK(*subs)
    | Unrecognized

  /** One step of the check history, added when the check descends one level. */
  datatype Step =
    | ElementStep(container: SeqKind, sub: Schema)  // "list[i] check: ..." / "tuple[i] check: ..."
    | DictKeyStep(sub: Schema)                      // " dict key check: ..."
    | DictValueStep(sub: Schema)                    // " dict value check: ..."
    | AllStep(sub: Schema, combinator: Schema)      // "Check_All_OK check: ... while trying: ..."

  /** The check history: the steps from the top-level check down to the current one. */
  type Trail = seq<Step>

  /** Why a check failed: the AssertionError the source raises. */
  datatype Violation =
    | WrongType(param: string, value: Value, expected: Class, trail: Trail)
    | WrongLength(param: string, value: Value, annotation: seq<Schema>, trail: Trail)
    | DictAnnotationSize(param: string, size: nat)
    | AnyFailed(param: string, value: Value, alternatives: seq<Schema>, trail: Trail)
    | UnsupportedSchema(param: string, value: Value, trail: Trail)

  /** The result of a check: it returns normally, or raises a violation. */
  datatype Outcome = Pass | Fail(err: Violation)

  /**
    A failure names the parameter being checked, and reports a check history
    that starts with the history the check was given: the recursion passes
    the parameter on unchanged and only ever appends to the history. The
    dict-size error is the one message without a history.
   */
  predicate ReportsFrom(o: Outcome, param: string, trail: Trail)
  {
    o.Fail? ==> o.err.param == param && (o.err.DictAnnotationSize? || trail <= o.err.trail)
  }

  /**
    `check(param, annot, value, check_history)`: does `value` satisfy
    `annot`? The branches are tried in the source's order.
   */
  function Check(param: string, annot: Schema, value: Value, trail: Trail): (r: Outcome)
    ensures ReportsFrom(r, param, trail)
    decreases annot, 0
  {
    match annot
    case NoCheck => Pass
    case Type(c) =>
      if IsInstance(value, c) then Pass else Fail(WrongType(param, value, c, trail))
    case Sequence(kind, elems) =>
      // isinstance(value, list / tuple), by ContainerInstance
      if !(value.SeqV? && value.kind == kind) then
        Fail(WrongType(param, value, KindClass(kind), trail))
      else if |elems| == 1 then
        CheckEach(param, elems[0], kind, value.items, trail)
      else if |elems| != |value.items| then
        Fail(WrongLength(param, value, elems, trail))
      else
        CheckZip(param, elems, kind, value.items, trail)
    case Mapping(entries) =>
      // isinstance(value, dict), by ContainerInstance
      if !value.DictV? then
        Fail(WrongType(param, value, DictC, trail))
      else if |entries| != 1 then
        Fail(DictAnnotationSize(param, |entries|))
      else
        CheckItems(param, entries[0], value.entries, trail)
    case AllOK(subs) =>
      CheckAll(param, annot, subs, value, trail)
    case AnyOK(subs) =>
      if FailCount(param, subs, value, trail) == |subs| then
        Fail(AnyFailed(param, value, subs, trail))
      else
        Pass
    case Unrecognized =>
      Fail(UnsupportedSchema(param, value, trail))
  }

  /** `for x in value: check(param, annot[0], x, ...)`, stopping at the first failure. */
  function CheckEach(param: string, elem: Schema, kind: SeqKind, items: seq<Value>, trail: Trail): (r: Outcome)
    ensures ReportsFrom(r, param, trail)
    decreases elem, 1, |items|
  {
    if items == [] then Pass
    else
      var here := Check(param, elem, items[0], trail + [ElementStep(kind, elem)]);
      if here.Fail? then here else CheckEach(param, elem, kind, items[1..], trail)
  }

  /** `for x, y in zip(annot, value): check(param, x, y, ...)`, stopping at the first failure. */
  function CheckZip(param: string, elems: seq<Schema>, kind: SeqKind, items: seq<Value>, trail: Trail): (r: Outcome)
    ensures ReportsFrom(r, param, trail)
    decreases elems, 1
  {
    if elems == [] || items == [] then Pass
    else
      var here := Check(param, elems[0], items[0], trail + [ElementStep(kind, elems[0])]);
      if here.Fail? then here else CheckZip(param, elems[1..], kind, items[1..], trail)
  }

  /**
    `for x, y in value.items()`: the key against the annotation's key, then the
    value against its value, stopping at the first failure.
   */
  function CheckItems(param: string, entry: (Schema, Schema), items: seq<(Value, Value)>, trail: Trail): (r: Outcome)
    ensures ReportsFrom(r, param, trail)
    decreases entry, 1, |items|
  {
    if items == [] then Pass
    else
      var key := Check(param, entry.0, items[0].0, trail + [DictKeyStep(entry.0)]);
      if key.Fail? then key
      else
        var val := Check(param, entry.1, items[0].1, trail + [DictValueStep(entry.1)]);
        if val.Fail? then val else CheckItems(param, entry, items[1..], trail)
  }

  /**
    `Check_All_OK.__check_annotation__`: each sub-annotation in turn, with the
    history extended by the sub-annotation and the combinator; the first
    failure is raised as it is.
   */
  function CheckAll(param: string, combinator: Schema, subs: seq<Schema>, value: Value, trail: Trail): (r: Outcome)
    ensures ReportsFrom(r, param, trail)
    decreases subs, 1
  {
    if subs == [] then Pass
    else
      var here := Check(param, subs[0], value, trail + [AllStep(subs[0], combinator)]);
      if here.Fail? then here else CheckAll(param, combinator, subs[1..], value, trail)
  }

  /**
    The number of sub-annotations of a `Check_Any_OK` that fail on `value`,
    each checked with the unextended history: the value its `failed`
    counter reaches.
   */
  function FailCount(param: string, subs: seq<Schema>, value: Value, trail: Trail): (n: nat)
    ensures n <= |subs|
    decreases subs, 1
  {
    if subs == [] then 0
    else
      FailCount(param, subs[..|subs| - 1], value, trail)
      + (if Check(param, subs[|subs| - 1], value, trail).Fail? then 1 else 0)
  }

  /**
    `Check_Any_OK.__check_annotation__`: try every sub-annotation, counting
    those that raise, and raise only if all of them did.
   */
  method CheckAnyOK(param: string, subs: seq<Schema>, value: Value, trail: Trail) returns (r: Outcome)
    ensures r == Check(param, AnyOK(subs), value, trail)
    ensures r.Pass? <==> exists i :: 0 <= i < |subs| && Check(param, subs[i], value, trail).Pass?
    ensures r.Fail? ==> r.err == AnyFailed(param, value, subs, trail)
  {
    var failed := 0;
    for i := 0 to |subs|
      invariant failed == FailCount(param, subs[..i], value, trail)
    {
      var outcome := Check(param, subs[i], value, trail);
      if outcome.Fail? {
        failed := failed + 1;
      }
      assert subs[..i + 1][..i] == subs[..i];
    }
    assert subs[..|subs|] == subs;
    if failed == |subs| {
      r := Fail(AnyFailed(param, value, subs, trail));
    } else {
      r := Pass;
    }
    AllFailedCount(param, subs, value, trail);
  }

  /** The failure count reaches the number of sub-annotations exactly when every one of them fails. */
  lemma {:induction false} AllFailedCount(param: string, subs: seq<Schema>, value: Value, trail: Trail)
    ensures FailCount(param, subs, value, trail) == |subs|
        <==> forall i :: 0 <= i < |subs| ==> Check(param, subs[i], value, trail).Fail?
  {
    if subs != [] {
      var init := subs[..|subs| - 1];
      AllFailedCount(param, init, value, trail);
      assert forall i :: 0 <= i < |init| ==> init[i] == subs[i];
    }
  }
}
