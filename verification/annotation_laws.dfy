/**
  The truth table of the annotation checker, one lemma per kind of
  annotation, and the fact that the check history and the parameter name
  are only reported, never consulted.
 */
module AnnotationLaws {
  import opened PyValues
  import opened CheckAnnotation

  // ---------------------------------------------------------------------
  // Element-wise helpers: each passes exactly when every element does.
  // ---------------------------------------------------------------------

  /** `for x in value`: passes iff every element satisfies the one element annotation. */
  lemma {:induction false} EachPassesIff(param: string, elem: Schema, kind: SeqKind, items: seq<Value>, trail: Trail)
    ensures CheckEach(param, elem, kind, items, trail).Pass?
        <==> forall i :: 0 <= i < |items| ==> Check(param, elem, items[i], trail + [ElementStep(kind, elem)]).Pass?
    decreases |items|
  {
    if items != [] {
      EachPassesIff(param, elem, kind, items[1..], trail);
      assert forall i :: 1 <= i < |items| ==> items[1..][i - 1] == items[i];
    }
  }

  /** `zip(annot, value)` over equal lengths: passes iff each element satisfies the annotation at its position. */
  lemma {:induction false} ZipPassesIff(param: string, elems: seq<Schema>, kind: SeqKind, items: seq<Value>, trail: Trail)
    requires |elems| == |items|
    ensures CheckZip(param, elems, kind, items, trail).Pass?
        <==> forall i :: 0 <= i < |items| ==> Check(param, elems[i], items[i], trail + [ElementStep(kind, elems[i])]).Pass?
    decreases |items|
  {
    if items != [] {
      ZipPassesIff(param, elems[1..], kind, items[1..], trail);
      assert forall i :: 1 <= i < |items| ==> items[1..][i - 1] == items[i] && elems[1..][i - 1] == elems[i];
    }
  }

  /** `value.items()`: passes iff every key satisfies the key annotation and every value the value annotation. */
  lemma {:induction false} ItemsPassIff(param: string, entry: (Schema, Schema), items: seq<(Value, Value)>, trail: Trail)
    ensures CheckItems(param, entry, items, trail).Pass?
        <==> forall i :: 0 <= i < |items| ==>
               && Check(param, entry.0, items[i].0, trail + [DictKeyStep(entry.0)]).Pass?
               && Check(param, entry.1, items[i].1, trail + [DictValueStep(entry.1)]).Pass?
    decreases |items|
  {
    if items != [] {
      ItemsPassIff(param, entry, items[1..], trail);
      assert forall i :: 1 <= i < |items| ==> items[1..][i - 1] == items[i];
    }
  }

  /** `Check_All_OK`'s loop passes iff every remaining sub-annotation does. */
  lemma {:induction false} AllPassesIff(param: string, combinator: Schema, subs: seq<Schema>, value: Value, trail: Trail)
    ensures CheckAll(param, combinator, subs, value, trail).Pass?
        <==> forall i :: 0 <= i < |subs| ==> Check(param, subs[i], value, trail + [AllStep(subs[i], combinator)]).Pass?
    decreases |subs|
  {
    if subs != [] {
      AllPassesIff(param, combinator, subs[1..], value, trail);
      assert forall i :: 1 <= i < |subs| ==> subs[1..][i - 1] == subs[i];
    }
  }

  /**
    `Check_All_OK`'s loop, on failure, raises exactly the failure of the first
    sub-annotation that fails, unchanged: every sub-annotation before it passed.
   */
  lemma {:induction false} AllFailsFirst(param: string, combinator: Schema, subs: seq<Schema>, value: Value, trail: Trail)
    requires CheckAll(param, combinator, subs, value, trail).Fail?
    ensures exists k :: 0 <= k < |subs| &&
              (forall j :: 0 <= j < k ==> Check(param, subs[j], value, trail + [AllStep(subs[j], combinator)]).Pass?) &&
              CheckAll(param, combinator, subs, value, trail) == Check(param, subs[k], value, trail + [AllStep(subs[k], combinator)])
    decreases |subs|
  {
    if Check(param, subs[0], value, trail + [AllStep(subs[0], combinator)]).Fail? {
      assert 0 < |subs|;
    } else {
      AllFailsFirst(param, combinator, subs[1..], value, trail);
      var k :| 0 <= k < |subs| - 1
        && (forall j :: 0 <= j < k ==> Check(param, subs[1..][j], value, trail + [AllStep(subs[1..][j], combinator)]).Pass?)
        && CheckAll(param, combinator, subs[1..], value, trail) == Check(param, subs[1..][k], value, trail + [AllStep(subs[1..][k], combinator)]);
      forall j | 0 <= j < k + 1
        ensures Check(param, subs[j], value, trail + [AllStep(subs[j], combinator)]).Pass?
      {
        if j > 0 {
          assert subs[j] == subs[1..][j - 1];
        }
      }
      assert subs[k + 1] == subs[1..][k];
    }
  }

  /**
    The element loop, on failure, raises exactly the failure of the first
    element that fails, unchanged: every element before it passed.
   */
  lemma {:induction false} EachFailsFirst(param: string, elem: Schema, kind: SeqKind, items: seq<Value>, trail: Trail)
    requires CheckEach(param, elem, kind, items, trail).Fail?
    ensures exists k :: 0 <= k < |items| &&
              (forall j :: 0 <= j < k ==> Check(param, elem, items[j], trail + [ElementStep(kind, elem)]).Pass?) &&
              CheckEach(param, elem, kind, items, trail) == Check(param, elem, items[k], trail + [ElementStep(kind, elem)])
    decreases |items|
  {
    if Check(param, elem, items[0], trail + [ElementStep(kind, elem)]).Pass? {
      EachFailsFirst(param, elem, kind, items[1..], trail);
      var k :| 0 <= k < |items| - 1 &&
        (forall j :: 0 <= j < k ==> Check(param, elem, items[1..][j], trail + [ElementStep(kind, elem)]).Pass?) &&
        CheckEach(param, elem, kind, items[1..], trail) == Check(param, elem, items[1..][k], trail + [ElementStep(kind, elem)]);
      assert forall j :: 1 <= j < k + 2 ==> items[j] == items[1..][j - 1];
    }
  }

  /**
    The positional loop, on failure, raises exactly the failure of the first
    position that fails, unchanged: every position before it passed.
   */
  lemma {:induction false} ZipFailsFirst(param: string, elems: seq<Schema>, kind: SeqKind, items: seq<Value>, trail: Trail)
    requires CheckZip(param, elems, kind, items, trail).Fail?
    ensures exists k :: 0 <= k < |elems| && k < |items| &&
              (forall j :: 0 <= j < k ==> Check(param, elems[j], items[j], trail + [ElementStep(kind, elems[j])]).Pass?) &&
              CheckZip(param, elems, kind, items, trail) == Check(param, elems[k], items[k], trail + [ElementStep(kind, elems[k])])
    decreases |items|
  {
    if Check(param, elems[0], items[0], trail + [ElementStep(kind, elems[0])]).Pass? {
      ZipFailsFirst(param, elems[1..], kind, items[1..], trail);
      var k :| 0 <= k < |elems| - 1 && k < |items| - 1 &&
        (forall j :: 0 <= j < k ==> Check(param, elems[1..][j], items[1..][j], trail + [ElementStep(kind, elems[1..][j])]).Pass?) &&
        CheckZip(param, elems[1..], kind, items[1..], trail)
          == Check(param, elems[1..][k], items[1..][k], trail + [ElementStep(kind, elems[1..][k])]);
      assert forall j :: 1 <= j < k + 2 ==> items[j] == items[1..][j - 1] && elems[j] == elems[1..][j - 1];
    }
  }

  /**
    The items loop, on failure, raises exactly the failure of the first item
    that fails, unchanged: every earlier item passed, and within the failing
    item the key is checked first, so a value failure means its key passed.
   */
  lemma {:induction false} ItemsFailsFirst(param: string, entry: (Schema, Schema), items: seq<(Value, Value)>, trail: Trail)
    requires CheckItems(param, entry, items, trail).Fail?
    ensures exists k :: 0 <= k < |items| &&
              (forall j :: 0 <= j < k ==>
                 && Check(param, entry.0, items[j].0, trail + [DictKeyStep(entry.0)]).Pass?
                 && Check(param, entry.1, items[j].1, trail + [DictValueStep(entry.1)]).Pass?) &&
              (|| CheckItems(param, entry, items, trail) == Check(param, entry.0, items[k].0, trail + [DictKeyStep(entry.0)])
               || (&& Check(param, entry.0, items[k].0, trail + [DictKeyStep(entry.0)]).Pass?
                   && CheckItems(param, entry, items, trail) == Check(param, entry.1, items[k].1, trail + [DictValueStep(entry.1)])))
    decreases |items|
  {
    if && Check(param, entry.0, items[0].0, trail + [DictKeyStep(entry.0)]).Pass?
       && Check(param, entry.1, items[0].1, trail + [DictValueStep(entry.1)]).Pass?
    {
      ItemsFailsFirst(param, entry, items[1..], trail);
      var k :| 0 <= k < |items| - 1 &&
        (forall j :: 0 <= j < k ==>
           && Check(param, entry.0, items[1..][j].0, trail + [DictKeyStep(entry.0)]).Pass?
           && Check(param, entry.1, items[1..][j].1, trail + [DictValueStep(entry.1)]).Pass?) &&
        (|| CheckItems(param, entry, items[1..], trail) == Check(param, entry.0, items[1..][k].0, trail + [DictKeyStep(entry.0)])
         || (&& Check(param, entry.0, items[1..][k].0, trail + [DictKeyStep(entry.0)]).Pass?
             && CheckItems(param, entry, items[1..], trail) == Check(param, entry.1, items[1..][k].1, trail + [DictValueStep(entry.1)])));
      assert forall j :: 1 <= j < k + 2 ==> items[j] == items[1..][j - 1];
    }
  }

  // ---------------------------------------------------------------------
  // The truth table of `check`, one kind of annotation at a time.
  // ---------------------------------------------------------------------

  /** `None` accepts every value, whatever the history. */
  lemma NoneAcceptsAll(param: string, value: Value, trail: Trail)
    ensures Check(param, NoCheck, value, trail) == Pass
  {
  }

  /** A plain class accepts exactly its instances, and otherwise raises a wrong-type error naming it. */
  lemma ClassSchema(param: string, c: Class, value: Value, trail: Trail)
    ensures Check(param, Type(c), value, trail).Pass? <==> IsInstance(value, c)
    ensures Check(param, Type(c), value, trail).Fail?
        ==> Check(param, Type(c), value, trail).err == WrongType(param, value, c, trail)
  {
  }

  /**
    A list or tuple annotation rejects any value that is not an instance of
    that container, before looking at its elements or its length.
   */
  lemma SequenceKindFirst(param: string, kind: SeqKind, elems: seq<Schema>, value: Value, trail: Trail)
    requires !IsInstance(value, KindClass(kind))
    ensures Check(param, Sequence(kind, elems), value, trail) == Fail(WrongType(param, value, KindClass(kind), trail))
  {
  }

  /**
    A one-element list or tuple annotation accepts a container of that kind
    iff every element satisfies the element annotation; its length is never
    constrained.
   */
  lemma HomogeneousSequence(param: string, kind: SeqKind, elem: Schema, items: seq<Value>, trail: Trail)
    ensures Check(param, Sequence(kind, [elem]), SeqV(kind, items), trail).Pass?
        <==> forall i :: 0 <= i < |items| ==> Check(param, elem, items[i], trail + [ElementStep(kind, elem)]).Pass?
  {
    EachPassesIff(param, elem, kind, items, trail);
  }

  /** In particular the empty list or tuple satisfies every one-element annotation of its kind. */
  lemma HomogeneousAcceptsEmpty(param: string, kind: SeqKind, elem: Schema, trail: Trail)
    ensures Check(param, Sequence(kind, [elem]), SeqV(kind, []), trail) == Pass
  {
  }

  /**
    Any other list or tuple annotation fixes the length of the container, and
    then accepts it iff each element satisfies the annotation at its position.
   */
  lemma FixedSequence(param: string, kind: SeqKind, elems: seq<Schema>, items: seq<Value>, trail: Trail)
    requires |elems| != 1
    ensures |elems| != |items| ==>
      Check(param, Sequence(kind, elems), SeqV(kind, items), trail) == Fail(WrongLength(param, SeqV(kind, items), elems, trail))
    ensures |elems| == |items| ==>
      (Check(param, Sequence(kind, elems), SeqV(kind, items), trail).Pass? <==>
         forall i :: 0 <= i < |items| ==> Check(param, elems[i], items[i], trail + [ElementStep(kind, elems[i])]).Pass?)
  {
    if |elems| == |items| {
      ZipPassesIff(param, elems, kind, items, trail);
    }
  }

  /** A dict annotation first rejects any value that is not a dict. */
  lemma MappingKindFirst(param: string, entries: seq<(Schema, Schema)>, value: Value, trail: Trail)
    requires !IsInstance(value, DictC)
    ensures Check(param, Mapping(entries), value, trail) == Fail(WrongType(param, value, DictC, trail))
  {
  }

  /**
    On a dict value, a dict annotation without exactly one entry is an
    annotation error, even for the empty dict; with one entry it accepts the
    dict iff every key satisfies the key annotation and every value the value
    annotation.
   */
  lemma MappingSchema(param: string, entries: seq<(Schema, Schema)>, items: seq<(Value, Value)>, trail: Trail)
    ensures |entries| != 1 ==>
      Check(param, Mapping(entries), DictV(items), trail) == Fail(DictAnnotationSize(param, |entries|))
    ensures |entries| == 1 ==>
      (Check(param, Mapping(entries), DictV(items), trail).Pass? <==>
         forall i :: 0 <= i < |items| ==>
           && Check(param, entries[0].0, items[i].0, trail + [DictKeyStep(entries[0].0)]).Pass?
           && Check(param, entries[0].1, items[i].1, trail + [DictValueStep(entries[0].1)]).Pass?)
  {
    if |entries| == 1 {
      ItemsPassIff(param, entries[0], items, trail);
    }
  }

  /**
    `Check_All_OK(*subs)` passes iff every sub-annotation passes (so with no
    sub-annotations it always passes); its failure is the first failing
    sub-annotation's own failure.
   */
  lemma AllOKSchema(param: string, subs: seq<Schema>, value: Value, trail: Trail)
    ensures Check(param, AllOK(subs), value, trail).Pass?
        <==> forall i :: 0 <= i < |subs| ==> Check(param, subs[i], value, trail + [AllStep(subs[i], AllOK(subs))]).Pass?
    ensures Check(param, AllOK(subs), value, trail).Fail? ==>
      exists k :: 0 <= k < |subs| &&
        (forall j :: 0 <= j < k ==> Check(param, subs[j], value, trail + [AllStep(subs[j], AllOK(subs))]).Pass?) &&
        Check(param, AllOK(subs), value, trail) == Check(param, subs[k], value, trail + [AllStep(subs[k], AllOK(subs))])
    ensures subs == [] ==> Check(param, AllOK(subs), value, trail) == Pass
  {
    AllPassesIff(param, AllOK(subs), subs, value, trail);
    if Check(param, AllOK(subs), value, trail).Fail? {
      AllFailsFirst(param, AllOK(subs), subs, value, trail);
    }
  }

  /**
    `Check_Any_OK(*subs)` passes iff some sub-annotation passes (so with no
    sub-annotations it always fails); its failure is its own, naming the
    alternatives and the history it was given.
   */
  lemma AnyOKSchema(param: string, subs: seq<Schema>, value: Value, trail: Trail)
    ensures Check(param, AnyOK(subs), value, trail).Pass?
        <==> exists i :: 0 <= i < |subs| && Check(param, subs[i], value, trail).Pass?
    ensures Check(param, AnyOK(subs), value, trail).Fail? ==>
      Check(param, AnyOK(subs), value, trail).err == AnyFailed(param, value, subs, trail)
    ensures subs == [] ==> Check(param, AnyOK(subs), value, trail).Fail?
  {
    AllFailedCount(param, subs, value, trail);
  }

  /** An annotation of no recognized kind is reported, never silently accepted. */
  lemma UnrecognizedFails(param: string, value: Value, trail: Trail)
    ensures Check(param, Unrecognized, value, trail) == Fail(UnsupportedSchema(param, value, trail))
  {
  }

  // ---------------------------------------------------------------------
  // The history and the parameter name are carried for messages only.
  // ---------------------------------------------------------------------

  /** Whether `check` passes depends on neither the parameter name nor the history passed in. */
  lemma {:induction false} PassIgnoresTrail(p1: string, p2: string, annot: Schema, value: Value, t1: Trail, t2: Trail)
    ensures Check(p1, annot, value, t1).Pass? == Check(p2, annot, value, t2).Pass?
    decreases annot, 0
  {
    match annot
    case Sequence(kind, elems) =>
      if value.SeqV? && value.kind == kind {
        if |elems| == 1 {
          EachIgnoresTrail(p1, p2, elems[0], kind, value.items, t1, t2);
        } else if |elems| == |value.items| {
          ZipIgnoresTrail(p1, p2, elems, kind, value.items, t1, t2);
        }
      }
    case Mapping(entries) =>
      if value.DictV? && |entries| == 1 {
        ItemsIgnoresTrail(p1, p2, entries[0], value.entries, t1, t2);
      }
    case AllOK(subs) =>
      AllIgnoresTrail(p1, p2, annot, subs, value, t1, t2);
    case AnyOK(subs) =>
      CountIgnoresTrail(p1, p2, subs, value, t1, t2);
    case _ =>
  }

  lemma {:induction false} EachIgnoresTrail(p1: string, p2: string, elem: Schema, kind: SeqKind, items: seq<Value>, t1: Trail, t2: Trail)
    ensures CheckEach(p1, elem, kind, items, t1).Pass? == CheckEach(p2, elem, kind, items, t2).Pass?
    decreases elem, 1, |items|
  {
    if items != [] {
      PassIgnoresTrail(p1, p2, elem, items[0], t1 + [ElementStep(kind, elem)], t2 + [ElementStep(kind, elem)]);
      EachIgnoresTrail(p1, p2, elem, kind, items[1..], t1, t2);
    }
  }

  lemma {:induction false} ZipIgnoresTrail(p1: string, p2: string, elems: seq<Schema>, kind: SeqKind, items: seq<Value>, t1: Trail, t2: Trail)
    ensures CheckZip(p1, elems, kind, items, t1).Pass? == CheckZip(p2, elems, kind, items, t2).Pass?
    decreases elems, 1
  {
    if elems != [] && items != [] {
      PassIgnoresTrail(p1, p2, elems[0], items[0], t1 + [ElementStep(kind, elems[0])], t2 + [ElementStep(kind, elems[0])]);
      ZipIgnoresTrail(p1, p2, elems[1..], kind, items[1..], t1, t2);
    }
  }

  lemma {:induction false} ItemsIgnoresTrail(p1: string, p2: string, entry: (Schema, Schema), items: seq<(Value, Value)>, t1: Trail, t2: Trail)
    ensures CheckItems(p1, entry, items, t1).Pass? == CheckItems(p2, entry, items, t2).Pass?
    decreases entry, 1, |items|
  {
    if items != [] {
      PassIgnoresTrail(p1, p2, entry.0, items[0].0, t1 + [DictKeyStep(entry.0)], t2 + [DictKeyStep(entry.0)]);
      PassIgnoresTrail(p1, p2, entry.1, items[0].1, t1 + [DictValueStep(entry.1)], t2 + [DictValueStep(entry.1)]);
      ItemsIgnoresTrail(p1, p2, entry, items[1..], t1, t2);
    }
  }

  lemma {:induction false} AllIgnoresTrail(p1: string, p2: string, combinator: Schema, subs: seq<Schema>, value: Value, t1: Trail, t2: Trail)
    ensures CheckAll(p1, combinator, subs, value, t1).Pass? == CheckAll(p2, combinator, subs, value, t2).Pass?
    decreases subs, 1
  {
    if subs != [] {
      PassIgnoresTrail(p1, p2, subs[0], value, t1 + [AllStep(subs[0], combinator)], t2 + [AllStep(subs[0], combinator)]);
      AllIgnoresTrail(p1, p2, combinator, subs[1..], value, t1, t2);
    }
  }

  /** `Check_Any_OK`'s failure count, and so whether it passes, does not depend on the history. */
  lemma {:induction false} CountIgnoresTrail(p1: string, p2: string, subs: seq<Schema>, value: Value, t1: Trail, t2: Trail)
    ensures FailCount(p1, subs, value, t1) == FailCount(p2, subs, value, t2)
    decreases subs, 1
  {
    if subs != [] {
      PassIgnoresTrail(p1, p2, subs[|subs| - 1], value, t1, t2);
      CountIgnoresTrail(p1, p2, subs[..|subs| - 1], value, t1, t2);
    }
  }

  // ---------------------------------------------------------------------
  // Instances: the combinators on the contradictory pair [int, str].
  // ---------------------------------------------------------------------

  /** `Check_Any_OK(int, str)` accepts a str (the second alternative) and rejects a float. */
  lemma AnyOfIntStr(param: string, trail: Trail)
    ensures Check(param, AnyOK([Type(IntC), Type(StrC)]), StrV("x"), trail) == Pass
    ensures Check(param, AnyOK([Type(IntC), Type(StrC)]), FloatV(3.14), trail)
         == Fail(AnyFailed(param, FloatV(3.14), [Type(IntC), Type(StrC)], trail))
  {
  }

  /** `Check_All_OK(int, str)` rejects a str with the failure of its first sub-annotation. */
  lemma AllOfIntStr(param: string, trail: Trail)
    ensures Check(param, AllOK([Type(IntC), Type(StrC)]), StrV("x"), trail)
         == Fail(WrongType(param, StrV("x"), IntC, trail + [AllStep(Type(IntC), AllOK([Type(IntC), Type(StrC)]))]))
  {
  }

  /** A `[int]` annotation rejects `[1, 2, "x"]` at its str element; `bool` values are ints. */
  lemma ListOfInt(param: string, trail: Trail)
    ensures Check(param, Sequence(List, [Type(IntC)]), SeqV(List, [IntV(1), BoolV(true)]), trail) == Pass
    ensures Check(param, Sequence(List, [Type(IntC)]), SeqV(List, [IntV(1), IntV(2), StrV("x")]), trail)
         == Fail(WrongType(param, StrV("x"), IntC, trail + [ElementStep(List, Type(IntC))]))
  {
  }
}
