/** The C++17 terse key specification of Boost.MultiIndex, `key<Keys...>`.

    A key is a non-type template argument: a pointer to a const or non-const
    member function taking nothing, any other pointer to member (a data
    member, or a member function of another signature or qualification), or
    a pointer to a free function of one parameter.  `key<K>` names the
    extractor that K stands for; `key<K0, K1, ...>` names a `composite_key`
    with one extractor per key in the declared order, over the type that a
    left fold of the keys' (decayed) value types ends with: each step keeps
    the accumulated type when it converts to the next one and otherwise takes
    the next one.  When convertibility is a preorder that type is the most
    specific of them; in general it need not convert to every one.

    C++ types are values of a type parameter `T`.  The two facts of the type
    system the header relies on are passed in as parameters:
      - `decay` stands for `std::decay_t`;
      - `conv(a, b)` stands for `std::is_convertible_v<const a&, const b&>`.
    Where a property needs convertibility to be a preorder, the lemma says so
    with `Reflexive(conv)` and `Transitive(conv)`. */
module MultiIndexKey {
  import opened Wrappers

  // ---------------------------------------------------------------------
  // Keys and extractors
  // ---------------------------------------------------------------------

  /** A non-type template argument given to `key`.  `name` tells apart two
      pointers of the same shape (two members of one class, say).

      MemberFunPtr is exactly `Type (Class::*)() const` or
      `Type (Class::*)()`.  DataMemberPtr is every other pointer to member
      `Type Class::*`: `member` is the deduced `Type`, which is a function
      type for a member function with parameters or with a `noexcept`,
      `volatile` or reference qualifier.  OtherArg is a value matching none
      of the four shapes, such as a pointer to a free function of two
      parameters, or an integer. */
  datatype KeyArg<T> =
    | DataMemberPtr(cls: T, member: T, name: nat)                 // Type Class::*
    | MemberFunPtr(cls: T, result: T, isConst: bool, name: nat)   // Type (Class::*)() [const]
    | FunctionPtr(param: T, result: T, name: nat)                 // Type (*)(Value)
    | OtherArg(name: nat)                                         // any value of another shape

  /** The single-key extractors of Boost.MultiIndex, as opaque tags carrying
      their template arguments. */
  datatype Extractor<T> =
    | Member(cls: T, member: T, name: nat)        // member<Class, Type, PtrToMember>
    | ConstMemFun(cls: T, result: T, name: nat)   // const_mem_fun<Class, Type, PtrToMemberFunction>
    | MemFun(cls: T, result: T, name: nat)        // mem_fun<Class, Type, PtrToMemberFunction>
    | GlobalFun(value: T, result: T, name: nat)   // global_fun<Value, Type, PtrToFunction>
  {
    /** The extractor's first template argument: the type it is applied to. */
    function Applied(): T
    {
      match this
      case Member(c, _, _) => c
      case ConstMemFun(c, _, _) => c
      case MemFun(c, _, _) => c
      case GlobalFun(v, _, _) => v
    }

    /** The pointer the extractor was instantiated with, read back as a key. */
    function Source(): KeyArg<T>
    {
      match this
      case Member(c, t, n) => DataMemberPtr(c, t, n)
      case ConstMemFun(c, t, n) => MemberFunPtr(c, t, true, n)
      case MemFun(c, t, n) => MemberFunPtr(c, t, false, n)
      case GlobalFun(v, t, n) => FunctionPtr(v, t, n)
    }
  }

  /** What `key<...>` names: a bare extractor for one key, a
      `composite_key<Value, E0, E1, ...>` for several. */
  datatype KeyExtractor<T> =
    | Single(extractor: Extractor<T>)
    | Composite(value: T, parts: seq<Extractor<T>>)

  /** The two member aliases of a `key_impl` instantiation. */
  datatype SingleKey<T> = SingleKey(valueType: T, extractor: Extractor<T>)
  datatype Resolved<T> = Resolved(valueType: T, keyType: KeyExtractor<T>)

  /** Why a key specification names no type. */
  datatype KeyError =
    | NoKeys                                 // no key at all
    | TooManyKeys(count: nat, limit: nat)    // more keys than composite_key has slots
    | UnrecognizedKey(position: nat)         // the first key matching none of the four shapes
    | UnrelatedValueTypes                    // least_generic met two inconvertible types

  // ---------------------------------------------------------------------
  // Classifier: the one-key specialisations of key_impl
  // ---------------------------------------------------------------------

  /** `key_impl<K>` for one key.  A key of any other shape has no
      specialisation of its own; the variadic one then refers to its own
      incomplete `value_type`, so no type is named (None). */
  function SingleKeyImpl<T>(k: KeyArg<T>): (r: Option<SingleKey<T>>)
    ensures r.Some? <==> !k.OtherArg?
    ensures r.Some? ==> r.value.extractor.Source() == k
    ensures r.Some? ==> r.value.valueType == r.value.extractor.Applied()
  {
    match k
    case DataMemberPtr(c, t, n) => Some(SingleKey(c, Member(c, t, n)))
    case MemberFunPtr(c, t, isConst, n) =>
      Some(SingleKey(c, if isConst then ConstMemFun(c, t, n) else MemFun(c, t, n)))
    case FunctionPtr(v, t, n) => Some(SingleKey(v, GlobalFun(v, t, n)))
    case OtherArg(_) => None
  }

  /** Every extractor is what its own pointer classifies to: together with
      the `Source()` clause of SingleKeyImpl, classification is a bijection
      between the recognised keys and the extractors. */
  lemma ClassifySource<T>(e: Extractor<T>)
    ensures SingleKeyImpl(e.Source()) == Some(SingleKey(e.Applied(), e))
  {
    match e
    case Member(_, _, _) =>
    case ConstMemFun(_, _, _) =>
    case MemFun(_, _, _) =>
    case GlobalFun(_, _, _) =>
  }

  /** A const and a non-const member function pointer with the same class,
      result and name classify to the same value type, and only the
      extractor kind tells them apart. */
  lemma ConstnessSelectsMemFunKind<T>(c: T, t: T, n: nat)
    ensures SingleKeyImpl(MemberFunPtr(c, t, true, n)) == Some(SingleKey(c, ConstMemFun(c, t, n)))
    ensures SingleKeyImpl(MemberFunPtr(c, t, false, n)) == Some(SingleKey(c, MemFun(c, t, n)))
  {
  }

  /** The pack expansions `key_impl<Keys>::...` over every key, in order;
      Err(p) when key p is the first one that classifies to nothing. */
  function ClassifyAll<T>(keys: seq<KeyArg<T>>): (r: Result<seq<SingleKey<T>>, nat>)
    ensures r.Ok? ==> |r.value| == |keys|
    ensures r.Ok? ==> forall i :: 0 <= i < |keys| ==> SingleKeyImpl(keys[i]) == Some(r.value[i])
    ensures r.Err? <==> exists i :: 0 <= i < |keys| && keys[i].OtherArg?
    ensures r.Err? ==> r.error < |keys| && keys[r.error].OtherArg?
    ensures r.Err? ==> forall i :: 0 <= i < r.error ==> !keys[i].OtherArg?
    decreases |keys|
  {
    if |keys| == 0 then Ok([])
    else
      match SingleKeyImpl(keys[0])
      case None => Err(0)
      case Some(s) =>
        match ClassifyAll(keys[1..])
        case Ok(rest) => Ok([s] + rest)
        case Err(p) => Err(p + 1)
  }

  /** Conversely, keys that each classify succeed together, to exactly their
      single-key results in order. */
  lemma ClassifyAllPointwise<T>(keys: seq<KeyArg<T>>, singles: seq<SingleKey<T>>)
    requires |keys| == |singles|
    requires forall i :: 0 <= i < |keys| ==> SingleKeyImpl(keys[i]) == Some(singles[i])
    ensures ClassifyAll(keys) == Ok(singles)
  {
    var r := ClassifyAll(keys);
    assert r.Ok?;
    assert r.value == singles;
  }

  // ---------------------------------------------------------------------
  // Generality resolver: least_generic
  // ---------------------------------------------------------------------

  /** The condition of least_generic's static_assert: either type of the
      pair converts to the other. */
  predicate Related<T>(a: T, b: T, conv: (T, T) -> bool)
  {
    conv(a, b) || conv(b, a)
  }

  /** The `std::conditional_t` of one step: keep the accumulated type when it
      converts to the next one, otherwise take the next one. */
  function Pick<T>(acc: T, next: T, conv: (T, T) -> bool): (r: T)
    ensures r == acc || r == next
    ensures conv(acc, next) ==> r == acc
    ensures !conv(acc, next) ==> r == next
    ensures Related(acc, next, conv) ==>
      (r == acc && conv(acc, next)) || (r == next && conv(next, acc))
  {
    if conv(acc, next) then acc else next
  }

  /** `least_generic<Ts...>::type`: the first two types are replaced by the
      one Pick keeps, until one type is left.  None when a step's two types
      are inconvertible, or for the empty pack (declared, never defined). */
  function LeastGeneric<T>(ts: seq<T>, conv: (T, T) -> bool): (r: Option<T>)
    ensures r.Some? ==> r.value in ts
    decreases |ts|
  {
    if |ts| == 0 then None
    else if |ts| == 1 then Some(ts[0])
    else if !Related(ts[0], ts[1], conv) then None
    else LeastGeneric([Pick(ts[0], ts[1], conv)] + ts[2..], conv)
  }

  /** Reference definition of the resolver as a left fold: the accumulated
      type after the first i + 1 types. */
  function Accumulator<T>(ts: seq<T>, i: nat, conv: (T, T) -> bool): T
    requires i < |ts|
    decreases i
  {
    if i == 0 then ts[0] else Pick(Accumulator(ts, i - 1, conv), ts[i], conv)
  }

  /** Every step of the left fold meets the static_assert. */
  ghost predicate StepsRelated<T>(ts: seq<T>, conv: (T, T) -> bool)
  {
    forall i :: 1 <= i < |ts| ==> StepRelated(ts, i, conv)
  }

  /** Step i of the left fold meets the static_assert. */
  ghost predicate StepRelated<T>(ts: seq<T>, i: nat, conv: (T, T) -> bool)
    requires 1 <= i < |ts|
  {
    Related(Accumulator(ts, i - 1, conv), ts[i], conv)
  }

  ghost predicate Reflexive<T(!new)>(conv: (T, T) -> bool)
  {
    forall a :: conv(a, a)
  }

  ghost predicate Transitive<T(!new)>(conv: (T, T) -> bool)
  {
    forall a, b, c :: conv(a, b) && conv(b, c) ==> conv(a, c)
  }

  /** Collapsing the first two types moves the fold one step along. */
  lemma {:induction false} AccumulatorShift<T>(ts: seq<T>, j: nat, conv: (T, T) -> bool)
    requires |ts| >= 2 && j < |ts| - 1
    ensures Accumulator([Pick(ts[0], ts[1], conv)] + ts[2..], j, conv) == Accumulator(ts, j + 1, conv)
    decreases j
  {
    var us := [Pick(ts[0], ts[1], conv)] + ts[2..];
    if j > 0 {
      AccumulatorShift(ts, j - 1, conv);
      assert us[j] == ts[j + 1];
    }
  }

  /** least_generic is the left fold: it succeeds exactly when no step meets
      two inconvertible types, and then yields the fold's last accumulator. */
  lemma {:induction false} LeastGenericIsLeftFold<T>(ts: seq<T>, conv: (T, T) -> bool)
    requires |ts| >= 1
    ensures LeastGeneric(ts, conv).Some? <==> StepsRelated(ts, conv)
    ensures LeastGeneric(ts, conv).Some? ==> LeastGeneric(ts, conv).value == Accumulator(ts, |ts| - 1, conv)
    decreases |ts|
  {
    if |ts| >= 2 {
      if Related(ts[0], ts[1], conv) {
        var us := [Pick(ts[0], ts[1], conv)] + ts[2..];
        LeastGenericIsLeftFold(us, conv);
        forall j | 0 <= j < |us|
          ensures Accumulator(us, j, conv) == Accumulator(ts, j + 1, conv)
        {
          AccumulatorShift(ts, j, conv);
        }
        if StepsRelated(us, conv) {
          forall i | 1 <= i < |ts|
            ensures StepRelated(ts, i, conv)
          {
            if i >= 2 {
              assert us[i - 1] == ts[i];
              assert StepRelated(us, i - 1, conv);
            }
          }
        } else {
          var i :| 1 <= i < |us| && !StepRelated(us, i, conv);
          assert us[i] == ts[i + 1];
          assert !StepRelated(ts, i + 1, conv);
        }
      } else {
        assert !StepRelated(ts, 1, conv);
      }
    }
  }

  /** Each accumulated type is one of the types seen so far. */
  lemma {:induction false} AccumulatorIsInput<T>(ts: seq<T>, i: nat, conv: (T, T) -> bool)
    requires i < |ts|
    ensures exists k :: 0 <= k <= i && Accumulator(ts, i, conv) == ts[k]
    decreases i
  {
    if i == 0 {
      assert Accumulator(ts, 0, conv) == ts[0];
    } else {
      AccumulatorIsInput(ts, i - 1, conv);
      if !conv(Accumulator(ts, i - 1, conv), ts[i]) {
        assert Accumulator(ts, i, conv) == ts[i];
      }
    }
  }

  /** When the first type converts to every later one (in particular when all
      types are the same and convertibility is reflexive, or when they are
      mutually convertible), the first type is kept. */
  lemma {:induction false} LeastGenericKeepsFirst<T>(ts: seq<T>, conv: (T, T) -> bool)
    requires |ts| >= 1
    requires forall i :: 1 <= i < |ts| ==> conv(ts[0], ts[i])
    ensures LeastGeneric(ts, conv) == Some(ts[0])
    decreases |ts|
  {
    if |ts| >= 2 {
      var us := [Pick(ts[0], ts[1], conv)] + ts[2..];
      assert us[0] == ts[0];
      forall i | 1 <= i < |us| ensures conv(us[0], us[i]) {
        assert us[i] == ts[i + 1];
      }
      LeastGenericKeepsFirst(us, conv);
    }
  }

  /** Of two keys' types where one strictly converts to the other, the one
      that converts (the more derived) is chosen, in either order. */
  lemma MoreSpecificOfTwoWins<T>(derived: T, base: T, conv: (T, T) -> bool)
    requires conv(derived, base) && !conv(base, derived)
    ensures LeastGeneric([derived, base], conv) == Some(derived)
    ensures LeastGeneric([base, derived], conv) == Some(derived)
  {
    assert [Pick(derived, base, conv)] + [derived, base][2..] == [derived];
    assert [Pick(base, derived, conv)] + [base, derived][2..] == [derived];
  }

  /** Only the pairs a fold step meets are checked: a first type that
      converts to two later, mutually inconvertible types resolves. */
  lemma InconvertibleLaterTypesResolve<T>(first: T, a: T, b: T, conv: (T, T) -> bool)
    requires conv(first, a) && conv(first, b)
    requires !conv(a, b) && !conv(b, a)
    ensures LeastGeneric([first, a, b], conv) == Some(first)
  {
    assert [Pick(first, a, conv)] + [first, a, b][2..] == [first, b];
    assert LeastGeneric([first, a, b], conv) == LeastGeneric([first, b], conv);
    assert [Pick(first, b, conv)] + [first, b][2..] == [first];
  }

  /** The fold succeeds whatever the order when every two input types are
      related. */
  lemma LeastGenericSucceedsWhenPairwiseRelated<T>(ts: seq<T>, conv: (T, T) -> bool)
    requires |ts| >= 1
    requires forall a, b :: 0 <= a < |ts| && 0 <= b < |ts| ==> Related(ts[a], ts[b], conv)
    ensures LeastGeneric(ts, conv).Some?
  {
    forall i | 1 <= i < |ts| ensures StepRelated(ts, i, conv) {
      AccumulatorIsInput(ts, i - 1, conv);
    }
    LeastGenericIsLeftFold(ts, conv);
  }

  /** With convertibility a preorder, a resolved type converts to every input
      type: it is a least element of the inputs. */
  lemma {:induction false} LeastGenericConvertsToAll<T(!new)>(ts: seq<T>, conv: (T, T) -> bool, r: T)
    requires Reflexive(conv) && Transitive(conv)
    requires LeastGeneric(ts, conv) == Some(r)
    ensures r in ts
    ensures forall i :: 0 <= i < |ts| ==> conv(r, ts[i])
    decreases |ts|
  {
    if |ts| == 1 {
      assert conv(ts[0], ts[0]);
    } else {
      var p := Pick(ts[0], ts[1], conv);
      var us := [p] + ts[2..];
      LeastGenericConvertsToAll(us, conv, r);
      assert conv(r, us[0]);
      assert conv(p, ts[0]) && conv(p, ts[1]) by {
        assert conv(ts[0], ts[0]) && conv(ts[1], ts[1]);
      }
      forall i | 0 <= i < |ts| ensures conv(r, ts[i]) {
        if i < 2 {
          ConvertsThrough(conv, r, p, ts[i]);
        } else {
          assert ts[i] == us[i - 1];
        }
      }
    }
  }

  lemma ConvertsThrough<T(!new)>(conv: (T, T) -> bool, a: T, b: T, c: T)
    requires Transitive(conv)
    requires conv(a, b) && conv(b, c)
    ensures conv(a, c)
  {
  }

  // ---------------------------------------------------------------------
  // Composite builder: key_impl for two or more keys
  // ---------------------------------------------------------------------

  /** `std::decay_t<key_impl<K>::value_type>` for each classified key. */
  function DecayedValueTypes<T>(singles: seq<SingleKey<T>>, decay: T -> T): (ts: seq<T>)
    ensures |ts| == |singles|
    ensures forall i :: 0 <= i < |singles| ==> ts[i] == decay(singles[i].valueType)
  {
    seq(|singles|, i requires 0 <= i < |singles| => decay(singles[i].valueType))
  }

  /** `key_impl<Keys>::type...` for each classified key. */
  function Extractors<T>(singles: seq<SingleKey<T>>): (es: seq<Extractor<T>>)
    ensures |es| == |singles|
    ensures forall i :: 0 <= i < |singles| ==> es[i] == singles[i].extractor
  {
    seq(|singles|, i requires 0 <= i < |singles| => singles[i].extractor)
  }

  /** `key_impl<Keys...>`: its `value_type` and `type`.  One key takes its
      own specialisation (value type not decayed, extractor not wrapped);
      several keys make a composite_key over the least generic of their
      decayed value types. */
  function KeyImpl<T>(keys: seq<KeyArg<T>>, decay: T -> T, conv: (T, T) -> bool): (r: Result<Resolved<T>, KeyError>)
    ensures r == Err(NoKeys) <==> |keys| == 0
    ensures r.Err? ==> !r.error.TooManyKeys?
    ensures (r.Err? && r.error.UnrecognizedKey?) <==> exists i :: 0 <= i < |keys| && keys[i].OtherArg?
    ensures r.Err? && r.error.UnrecognizedKey? ==>
      var p := r.error.position;
      p < |keys| && keys[p].OtherArg? && forall i :: 0 <= i < p ==> !keys[i].OtherArg?
    ensures r.Err? && r.error.UnrelatedValueTypes? ==> |keys| >= 2
    ensures r.Ok? && |keys| == 1 ==>
      && r.value.keyType.Single?
      && r.value.keyType.extractor.Source() == keys[0]
      && r.value.valueType == r.value.keyType.extractor.Applied()
    ensures r.Ok? && |keys| >= 2 ==>
      && r.value.keyType.Composite?
      && r.value.keyType.value == r.value.valueType
      && |r.value.keyType.parts| == |keys|
      && (forall i :: 0 <= i < |keys| ==> r.value.keyType.parts[i].Source() == keys[i])
      && (exists i :: 0 <= i < |keys| && r.value.valueType == decay(r.value.keyType.parts[i].Applied()))
  {
    if |keys| == 0 then Err(NoKeys)
    else if |keys| == 1 then
      match SingleKeyImpl(keys[0])
      case None => Err(UnrecognizedKey(0))
      case Some(s) => Ok(Resolved(s.valueType, Single(s.extractor)))
    else
      match ClassifyAll(keys)
      case Err(p) => Err(UnrecognizedKey(p))
      case Ok(singles) => CompositeKeyImpl(singles, decay, conv)
  }

  /** The variadic `key_impl<Key0, Keys...>` once every key is classified:
      the least generic decayed value type, and a composite_key over it with
      the extractors in order. */
  function CompositeKeyImpl<T>(singles: seq<SingleKey<T>>, decay: T -> T, conv: (T, T) -> bool): (r: Result<Resolved<T>, KeyError>)
    ensures r.Err? ==> r.error == UnrelatedValueTypes
    ensures r.Ok? ==>
      && r.value.keyType.Composite?
      && r.value.keyType.value == r.value.valueType
      && |r.value.keyType.parts| == |singles|
      && (forall i :: 0 <= i < |singles| ==> r.value.keyType.parts[i] == singles[i].extractor)
      && (exists i :: 0 <= i < |singles| && r.value.valueType == decay(singles[i].valueType))
  {
    var ts := DecayedValueTypes(singles, decay);
    match LeastGeneric(ts, conv)
    case None => Err(UnrelatedValueTypes)
    case Some(v) =>
      assert exists i :: 0 <= i < |ts| && v == ts[i];
      Ok(Resolved(v, Composite(v, Extractors(singles))))
  }

  /** For several recognised keys, key_impl succeeds exactly when
      least_generic does over their decayed value types, with its result. */
  lemma KeyImplUsesLeastGeneric<T>(keys: seq<KeyArg<T>>, decay: T -> T, conv: (T, T) -> bool)
    requires |keys| >= 2
    requires ClassifyAll(keys).Ok?
    ensures var ts := DecayedValueTypes(ClassifyAll(keys).value, decay);
      var r := KeyImpl(keys, decay, conv);
      && (r.Ok? <==> LeastGeneric(ts, conv).Some?)
      && (r.Ok? ==> r.value.valueType == LeastGeneric(ts, conv).value)
  {
    var singles := ClassifyAll(keys).value;
    assert KeyImpl(keys, decay, conv) == CompositeKeyImpl(singles, decay, conv);
  }

  /** For several recognised keys, resolution fails exactly when a step of
      the left fold over their decayed value types meets inconvertible
      types, and then for that reason only. */
  lemma KeyImplResolvesLeftToRight<T>(keys: seq<KeyArg<T>>, decay: T -> T, conv: (T, T) -> bool)
    requires |keys| >= 2
    requires ClassifyAll(keys).Ok?
    ensures var ts := DecayedValueTypes(ClassifyAll(keys).value, decay);
      var r := KeyImpl(keys, decay, conv);
      && (r.Ok? <==> StepsRelated(ts, conv))
      && (r.Err? ==> r.error == UnrelatedValueTypes)
  {
    KeyImplUsesLeastGeneric(keys, decay, conv);
    LeastGenericIsLeftFold(DecayedValueTypes(ClassifyAll(keys).value, decay), conv);
  }

  /** With convertibility a preorder, the value type of a composite key
      converts to the decayed value type of every one of its extractors. */
  lemma CompositeValueTypeConvertsToEveryKey<T(!new)>(keys: seq<KeyArg<T>>, decay: T -> T, conv: (T, T) -> bool)
    requires Reflexive(conv) && Transitive(conv)
    requires |keys| >= 2 && KeyImpl(keys, decay, conv).Ok?
    ensures var r := KeyImpl(keys, decay, conv).value;
      forall i :: 0 <= i < |keys| ==> conv(r.valueType, decay(r.keyType.parts[i].Applied()))
  {
    var singles := ClassifyAll(keys).value;
    var ts := DecayedValueTypes(singles, decay);
    var r := KeyImpl(keys, decay, conv).value;
    LeastGenericConvertsToAll(ts, conv, r.valueType);
    forall i | 0 <= i < |keys|
      ensures conv(r.valueType, decay(r.keyType.parts[i].Applied()))
    {
      assert r.keyType.parts[i] == singles[i].extractor;
      assert ts[i] == decay(singles[i].valueType);
    }
  }

  /** Keys of any mix of kinds whose decayed value types are all one type t
      resolve to t, when convertibility is reflexive. */
  lemma SharedValueTypeResolves<T>(keys: seq<KeyArg<T>>, decay: T -> T, conv: (T, T) -> bool, t: T)
    requires conv(t, t)
    requires |keys| >= 2
    requires forall i :: 0 <= i < |keys| ==>
      SingleKeyImpl(keys[i]).Some? && decay(SingleKeyImpl(keys[i]).value.valueType) == t
    ensures KeyImpl(keys, decay, conv).Ok?
    ensures KeyImpl(keys, decay, conv).value.valueType == t
  {
    var singles := ClassifyAll(keys).value;
    var ts := DecayedValueTypes(singles, decay);
    assert forall i :: 0 <= i < |ts| ==> ts[i] == t;
    LeastGenericKeepsFirst(ts, conv);
  }

  // ---------------------------------------------------------------------
  // Arity guard
  // ---------------------------------------------------------------------

  /** Extractor slots of composite_key.  The number is configured in
      composite_key.hpp, which is not part of this model; 10 is the
      library's default. */
  const CompositeKeySlots: nat := 10

  /** Template arguments of composite_key once its defaults are filled in. */
  datatype TemplateArg = Void | NullType

  /** `composite_key<void, void>`: the value slot and the first extractor
      slot given, every further extractor slot defaulted. */
  function DefaultedCompositeKeyArgs(slots: nat): seq<TemplateArg>
    requires slots >= 1
  {
    [Void, Void] + seq(slots - 1, _ => NullType)
  }

  /** `composite_key_size<composite_key<Args...>>::value`. */
  function CompositeKeySize(args: seq<TemplateArg>): (n: nat)
    requires |args| >= 1
    ensures n + 1 == |args|
    ensures forall s: nat :: s >= 1 && args == DefaultedCompositeKeyArgs(s) ==> n == s
  {
    |args| - 1
  }

  /** composite_key_size counts the extractor slots. */
  lemma CompositeKeySizeIsSlotCount(slots: nat)
    requires slots >= 1
    ensures CompositeKeySize(DefaultedCompositeKeyArgs(slots)) == slots
  {
  }

  /** `limited_size_key_impl<Keys...>::type`: the count is checked against
      the limit before key_impl is consulted. */
  function LimitedSizeKeyImpl<T>(keys: seq<KeyArg<T>>, limit: nat, decay: T -> T, conv: (T, T) -> bool): (r: Result<KeyExtractor<T>, KeyError>)
    ensures |keys| > limit ==> r == Err(TooManyKeys(|keys|, limit))
    ensures r.Ok? ==> 1 <= |keys| <= limit
    ensures |keys| <= limit ==>
      var k := KeyImpl(keys, decay, conv);
      && (r.Ok? <==> k.Ok?)
      && (r.Ok? ==> r.value == k.value.keyType)
      && (r.Err? ==> r.error == k.error)
  {
    if |keys| > limit then Err(TooManyKeys(|keys|, limit))
    else
      match KeyImpl(keys, decay, conv)
      case Ok(res) => Ok(res.keyType)
      case Err(e) => Err(e)
  }

  /** The alias `key<Keys...>`, limited by composite_key's slot count. */
  function Key<T>(keys: seq<KeyArg<T>>, decay: T -> T, conv: (T, T) -> bool): (r: Result<KeyExtractor<T>, KeyError>)
    ensures |keys| == 0 ==> r == Err(NoKeys)
    ensures |keys| > CompositeKeySlots ==> r == Err(TooManyKeys(|keys|, CompositeKeySlots))
    ensures r.Ok? ==> 1 <= |keys| <= CompositeKeySlots
    ensures r.Ok? ==> (|keys| == 1 <==> r.value.Single?)
    ensures |keys| <= CompositeKeySlots ==>
      var k := KeyImpl(keys, decay, conv);
      && (r.Ok? <==> k.Ok?)
      && (r.Ok? ==> r.value == k.value.keyType)
      && (r.Err? ==> r.error == k.error)
  {
    CompositeKeySizeIsSlotCount(CompositeKeySlots);
    LimitedSizeKeyImpl(keys, CompositeKeySize(DefaultedCompositeKeyArgs(CompositeKeySlots)), decay, conv)
  }
}
