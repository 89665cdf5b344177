# Annotation checker model

A Dafny model of the recursive annotation checker in
`33_program4/checkannotation.py`. `Check_Annotation.check(param, annot,
value, check_history)` decides whether a Python value satisfies an
annotation. It returns normally when the value satisfies it and raises an
`AssertionError` when it does not. Annotations come in these kinds:

- `None`, which puts no constraint on the value.
- A plain class, whose instances satisfy it.
- A list or tuple of annotations. With one element, every element of a
  container of the same kind must satisfy it, whatever the container's length.
  With any other number of elements, the container must have that many
  elements, each satisfying the annotation at its position.
- A dict `{k: v}`. The value must be a dict, and the annotation must have
  exactly one entry. Then every key must satisfy `k` and every value `v`.
- An object with `__check_annotation__`. Two are provided: `Check_All_OK`,
  which needs every sub-annotation to hold and raises the first failure
  unchanged, and `Check_Any_OK`, which needs at least one to hold.

Files:

- `values.dfy` (module `PyValues`): the Python values the checker looks at and
  `isinstance` over an abstract class hierarchy. `bool` is a subclass of
  `int`, every class is a subclass of `object`, and user classes form
  single-inheritance chains.
- `check_annotation.dfy` (module `CheckAnnotation`): the annotation datatype
  and `check` with its list/tuple and dict helpers, as mutually recursive
  functions. `Check_All_OK.__check_annotation__` is a recursive function.
  `Check_Any_OK.__check_annotation__` is the method `CheckAnyOK`, whose loop
  keeps the source's `failed` counter. The two `__init__` methods, which only
  store their arguments, are the datatype constructors `AllOK(subs)` and
  `AnyOK(subs)`.
- `annotation_laws.dfy` (module `AnnotationLaws`): the truth table of `check`,
  one lemma per kind of annotation. It also proves that the check history and
  the parameter name never change whether a check passes.

A raised `AssertionError` is a `Fail` outcome carrying a `Violation`. Each
violation records the kind of failure, the parameter and, where the source's
message has one, the check history. The history is a sequence of abstract
steps, one per level of descent, rather than text.

The catch-all branch of `check` (lines 111-118) is unfinished in the source:
its `except:` holds a bare `assert` and its `else:` is empty, so the file does
not parse as written. The model keeps the dispatch explicit. The two
combinators are the `AllOK` and `AnyOK` variants of the annotation datatype,
and their failures propagate unchanged. Any other annotation object has no
`__check_annotation__` to call and is the `Unrecognized` variant. It fails
with an `UnsupportedSchema` violation rather than passing silently.

A list or tuple annotation with no elements falls into the fixed-length
branch (line 79), so it accepts only the empty container. The dict-size error
is raised only once the value is known to be a dict (lines 87-89), and its
message carries no check history.

Dicts, both values and dict annotations, are sequences of (key, value) pairs.
Python keeps dict keys distinct; the model does not require it. Such inputs
have no Python counterpart, and the checker behaves on them as it would on
any other list of pairs.

## Model

| member | source | states |
|---|---|---|
| PyValues.TypeOf | 33_program4/checkannotation.py:73 | `type(value)`: never bare `object`; a list or tuple class exactly for sequence containers, `dict` exactly for dicts, a user class exactly for user-class instances |
| PyValues.IsSubclass | 33_program4/checkannotation.py:103 | `issubclass(c, d)`: every class is a subclass of itself and of `object`, and `object` is a subclass only of itself |
| PyValues.IsInstance | 33_program4/checkannotation.py:87 | `isinstance(value, c)`: every value is an instance of its own class and of `object`, and a `bool` is an instance of `int` |
| PyValues.ContainerInstance | 33_program4/checkannotation.py:72-74 | `isinstance(value, list/tuple/dict)` holds exactly for container values of that kind, so the container tests in `Check` are the source's `isinstance` tests |
| PyValues.SubclassTransitive | 33_program4/checkannotation.py:102-104 | `issubclass` is transitive, so a class annotation admits instances of its subclasses at any depth |
| PyValues.UserSubclassTransitive | 33_program4/checkannotation.py:102-104 | transitivity along a user class's chain of bases |
| PyValues.UserClassNotBuiltin | 33_program4/checkannotation.py:102-104 | an instance of a user class is never an instance of a builtin class other than `object` |
| PyValues.InstanceUpwards | 33_program4/checkannotation.py:102-104 | an instance of a class is an instance of every superclass of that class |
| CheckAnnotation.Check | 33_program4/checkannotation.py:63-118 | a failure names the parameter passed in, and its check history begins with the history passed in, because descent only appends to it; the dict-size error carries no history |
| CheckAnnotation.CheckEach | 33_program4/checkannotation.py:76-78 | each element failure names the parameter passed in and reports a history extending the one passed in |
| CheckAnnotation.CheckZip | 33_program4/checkannotation.py:83-84 | each positional failure names the parameter passed in and reports a history extending the one passed in |
| CheckAnnotation.CheckItems | 33_program4/checkannotation.py:92-94 | each key or value failure names the parameter passed in and reports a history extending the one passed in |
| CheckAnnotation.CheckAll | 33_program4/checkannotation.py:18-20 | a `Check_All_OK` failure names the parameter passed in and reports a history extending the one passed in |
| CheckAnnotation.FailCount | 33_program4/checkannotation.py:39-44 | the failure counter never exceeds the number of sub-annotations |
| CheckAnnotation.CheckAnyOK | 33_program4/checkannotation.py:38-47 | the counting loop raises exactly when `Check` says `Check_Any_OK` fails; it passes iff some sub-annotation passes, and otherwise raises its own `AnyFailed` error with the unextended history |
| CheckAnnotation.AllFailedCount | 33_program4/checkannotation.py:45 | `failed == len(self._annotations)` holds iff every sub-annotation fails |
| AnnotationLaws.EachPassesIff | 33_program4/checkannotation.py:76-78 | the element loop passes iff every element satisfies `annot[0]` |
| AnnotationLaws.ZipPassesIff | 33_program4/checkannotation.py:83-84 | over equal lengths, the zip loop passes iff each element satisfies the annotation at its position |
| AnnotationLaws.ItemsPassIff | 33_program4/checkannotation.py:92-94 | the items loop passes iff every key satisfies the key annotation and every value satisfies the value annotation |
| AnnotationLaws.EachFailsFirst | 33_program4/checkannotation.py:77-78 | a failing element loop raises exactly the first failing element's failure, unchanged, and every earlier element passed |
| AnnotationLaws.ZipFailsFirst | 33_program4/checkannotation.py:83-84 | a failing positional loop raises exactly the first failing position's failure, unchanged, and every earlier position passed |
| AnnotationLaws.ItemsFailsFirst | 33_program4/checkannotation.py:92-94 | a failing items loop raises exactly the first failing item's failure, unchanged; every earlier key and value passed, and a value is reported only after its key passed |
| AnnotationLaws.AllPassesIff | 33_program4/checkannotation.py:19-20 | the `Check_All_OK` loop passes iff every sub-annotation passes |
| AnnotationLaws.AllFailsFirst | 33_program4/checkannotation.py:18-20 | a `Check_All_OK` failure is exactly the first failing sub-annotation's failure, and every earlier sub-annotation passed |
| AnnotationLaws.NoneAcceptsAll | 33_program4/checkannotation.py:100-101 | a `None` annotation accepts every value under any history |
| AnnotationLaws.ClassSchema | 33_program4/checkannotation.py:102-104 | a class annotation passes iff `isinstance(value, annot)`, and otherwise fails with a wrong-type error naming that class |
| AnnotationLaws.SequenceKindFirst | 33_program4/checkannotation.py:72-74 | a list or tuple annotation rejects any non-instance of that container with a wrong-type error, before elements or length are examined |
| AnnotationLaws.HomogeneousSequence | 33_program4/checkannotation.py:76-78 | a one-element list or tuple annotation passes iff every element matches it, whatever the length |
| AnnotationLaws.HomogeneousAcceptsEmpty | 33_program4/checkannotation.py:76-78 | the empty list or tuple satisfies every one-element annotation of its kind |
| AnnotationLaws.FixedSequence | 33_program4/checkannotation.py:79-84 | otherwise, a length mismatch fails with a wrong-length error; with equal lengths the check passes iff each position matches |
| AnnotationLaws.MappingKindFirst | 33_program4/checkannotation.py:87-88 | a dict annotation rejects any non-dict with a wrong-type error |
| AnnotationLaws.MappingSchema | 33_program4/checkannotation.py:86-94 | on a dict, a dict annotation without exactly one entry fails with the annotation-size error, even for `{}`; with one entry it passes iff every key and every value match |
| AnnotationLaws.AllOKSchema | 33_program4/checkannotation.py:18-20 | `Check_All_OK` passes iff every sub-annotation passes, so with none it passes; its failure is the first failing sub-annotation's own failure |
| AnnotationLaws.AnyOKSchema | 33_program4/checkannotation.py:38-47 | `Check_Any_OK` passes iff some sub-annotation passes, so with none it fails; its failure is its own `AnyFailed` error |
| AnnotationLaws.UnrecognizedFails | 33_program4/checkannotation.py:111-118 | an annotation of no recognized kind fails with `UnsupportedSchema` instead of passing silently |
| AnnotationLaws.PassIgnoresTrail | 33_program4/checkannotation.py:63-118 | whether `check` passes depends on neither the parameter name nor the check history |
| AnnotationLaws.EachIgnoresTrail | 33_program4/checkannotation.py:76-78 | the element loop's verdict does not depend on the parameter name or the history |
| AnnotationLaws.ZipIgnoresTrail | 33_program4/checkannotation.py:83-84 | the positional loop's verdict does not depend on the parameter name or the history |
| AnnotationLaws.ItemsIgnoresTrail | 33_program4/checkannotation.py:92-94 | the items loop's verdict does not depend on the parameter name or the history |
| AnnotationLaws.AllIgnoresTrail | 33_program4/checkannotation.py:19-20 | the `Check_All_OK` verdict does not depend on the parameter name or the history |
| AnnotationLaws.CountIgnoresTrail | 33_program4/checkannotation.py:39-45 | `Check_Any_OK`'s failure count, and so its verdict, does not depend on the parameter name or the history |
| AnnotationLaws.AnyOfIntStr | 33_program4/checkannotation.py:38-47 | `Check_Any_OK(int, str)` accepts `"x"` through its second alternative and rejects `3.14` with its own error |
| AnnotationLaws.AllOfIntStr | 33_program4/checkannotation.py:18-20 | `Check_All_OK(int, str)` rejects `"x"` with the `int` sub-annotation's error, unchanged |
| AnnotationLaws.ListOfInt | 33_program4/checkannotation.py:76-78 | `[int]` accepts `[1, True]` and rejects `[1, 2, "x"]` at the str element |

## Left out

- `Check_Annotation.__call__` and `param_arg_bindings` (lines 123-163): binding a call's arguments by reflection and calling the decorated function. This is glue around the checker.
- The class-level and instance-level `checking_on` switches and the unused `list_type` set (lines 53, 58-59, 138-139): configuration, not checking logic.
- Message text: `repr` and `str` of values and annotations, `type_as_str` from the `goody` module (not part of this model), `str(annot)[8:-2]`, and the two combinators' `__repr__`. A violation records the failure's kind, parameter, value, annotation and history instead.
- The element indices in the history (`value.index(x)`, `annot.index(x)` at lines 78 and 84): they are message-only and report a first occurrence, not the true position. An `ElementStep` records the container kind and the element annotation.
- The `__main__` block and `driver` (lines 169-178).
- Exceptions other than `AssertionError` raised by a user-written `__check_annotation__`, and any user `__check_annotation__` class besides the two combinators.
- Recursion depth: Python raises `RecursionError` on a deeply nested annotation or value. `Check_Any_OK`'s `except AssertionError` (line 43) does not catch it, so it escapes the whole check. The model's `Check` always returns `Pass` or `Fail`.
- Cyclic annotations, such as a list that contains itself: the source would recurse until `RecursionError`. The annotation datatype is well-founded, so it cannot represent them.
- Subclasses of `list`, `tuple` and `dict`, and classes whose metaclass is not `type`. User classes in the model derive only from `object` or other user classes.
- The unfinished `try`/`except` around `__check_annotation__` (lines 111-118): as written it does not parse. Combinator failures propagate unchanged, and a non-annotation object fails with `UnsupportedSchema`.
