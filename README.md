# Boost.MultiIndex `key<...>`: a Dafny model

This project models the C++17 terse key specification of Boost.MultiIndex,
`boost::multi_index::key<Keys...>` in `include/boost/multi_index/key.hpp`. Each key is a
non-type template argument: a pointer to a const or non-const member function taking
nothing, any other pointer to member `Type Class::*` (a data member, or a member function
of another signature or qualification, whose `Type` is then a function type), or a pointer
to a free function of one parameter. The alias names one of these:

- for one key, the key's own extractor (`member`, `const_mem_fun`, `mem_fun` or
  `global_fun`);
- for several keys, a `composite_key` over the *least generic* of the keys' decayed value
  types, with the extractors in the declared order.

If no type can be named, the program is rejected at compile time. That happens when there
are no keys, when there are more keys than `composite_key` has slots, when a key has an
unsupported shape, or when a step of the left fold over the value types meets an
accumulated type and a next type that convert neither way (lines 81-84). Two inconvertible
value types elsewhere in the pack do no harm: keys over `Bottom`, `Left` and `Right`, in
that order, resolve to `Bottom` (`InconvertibleLaterTypesResolve`, `BottomFirstResolves`).

Everything in this header is type-level recursion with no state, so the model is pure:
datatypes, recursive functions and lemmas.

- `wrappers.dfy`: `Option` and `Result`.
- `key.dfy`, module `MultiIndexKey`, covers the four parts of the header:
  - the single-key classifier (`SingleKeyImpl`, `ClassifyAll`);
  - the resolver `LeastGeneric`, with a separate left-fold definition (`Accumulator`,
    `StepsRelated`) to compare it against;
  - the composite builder (`KeyImpl`, `CompositeKeyImpl`);
  - the arity guard (`CompositeKeySize`, `LimitedSizeKeyImpl`, `Key`).
- `key_examples.dfy`, module `KeyExamples`, applies the model to a small class hierarchy:
  `Employee` derives from `Person`, and `Bottom` derives from both `Left` and `Right`.

C++ types are values of a type parameter `T`. `std::decay_t` is passed in as a function
`decay`. `std::is_convertible_v<const A&, const B&>` is passed in as a predicate
`conv(A, B)`. C++ does not make that relation transitive in general, because two
user-defined conversions do not chain. So the lemmas that need a preorder say so with
`Reflexive(conv)` and `Transitive(conv)`. A compile-time error becomes an `Err` value
whose `KeyError` names one of the four causes. When a pack has several errors, the model
reports the first in this order: the arity check (line 118 comes before line 122), then
the leftmost unrecognised key, then the unrelated types.

Reading `least_generic` as "the common base type" would give `Base` for the pair
`(Derived, Base)`. The code does the opposite: line 87 keeps the type that converts to the
other one, which is `Derived`, the more specific type. This is what a composite key needs,
because extractors written for `Base` also apply to a `Derived`. The model follows the code
(`MoreSpecificOfTwoWins`, `DerivedAndBaseResolveToDerived`).

## Model

| member | source | states |
|---|---|---|
| `MultiIndexKey.SingleKeyImpl` | include/boost/multi_index/key.hpp:39-67 | A key is classified exactly when it has one of the four pointer shapes. The extractor's instantiating pointer is that key, and `value_type` is the extractor's first template argument: the class for member and member-function pointers, the parameter type for a free function. |
| `MultiIndexKey.ClassifySource` | include/boost/multi_index/key.hpp:39-67 | Every extractor is what its own pointer classifies to. Together with `SingleKeyImpl`, classification is a bijection between the recognised keys and the extractors. |
| `MultiIndexKey.ConstnessSelectsMemFunKind` | include/boost/multi_index/key.hpp:46-60 | Two member-function pointers that differ only in const-qualification give `const_mem_fun` and `mem_fun` respectively, with the same class as `value_type`. |
| `MultiIndexKey.ClassifyAll` | include/boost/multi_index/key.hpp:95-102 | Classifying a pack fails exactly when some key is unrecognised, and it reports the first one. On success, there is one result per key, in order, each equal to that key's single-key classification. |
| `MultiIndexKey.ClassifyAllPointwise` | include/boost/multi_index/key.hpp:95-102 | Conversely, if every key classifies, the pack classifies to exactly those results in order. |
| `MultiIndexKey.Pick` | include/boost/multi_index/key.hpp:86-87 | One step keeps one of its two types: the accumulated type when it converts to the next, otherwise the next. For related types, the kept type is one that converts to the other. |
| `MultiIndexKey.LeastGeneric` | include/boost/multi_index/key.hpp:69-90 | A resolved type is always one of the input types. |
| `MultiIndexKey.LeastGenericIsLeftFold` | include/boost/multi_index/key.hpp:78-90 | `least_generic` succeeds if and only if no step of the left fold meets an accumulator and a next type that are inconvertible both ways. It then yields the fold's last accumulator; each step keeps the accumulator when it converts to the next type and otherwise takes the next type. |
| `MultiIndexKey.LeastGenericKeepsFirst` | include/boost/multi_index/key.hpp:72-89 | If the first type converts to every later one, the first type is the result. This covers a single type, identical types under reflexive convertibility, and mutually convertible types. |
| `MultiIndexKey.MoreSpecificOfTwoWins` | include/boost/multi_index/key.hpp:86-88 | For two types where one converts to the other but not back, the one that converts (the derived type) is chosen, in either order. |
| `MultiIndexKey.InconvertibleLaterTypesResolve` | include/boost/multi_index/key.hpp:78-90 | Only the pairs that a fold step meets are checked. A first type that converts to two later types resolves to that first type, even when those two convert neither way. |
| `MultiIndexKey.LeastGenericSucceedsWhenPairwiseRelated` | include/boost/multi_index/key.hpp:78-90 | If every two input types are convertible in some direction, resolution succeeds. |
| `MultiIndexKey.LeastGenericConvertsToAll` | include/boost/multi_index/key.hpp:78-90 | If convertibility is reflexive and transitive, a resolved type is one of the inputs and converts to every input type, so it is a least element. |
| `MultiIndexKey.DecayedValueTypes` | include/boost/multi_index/key.hpp:96-97 | The pack given to `least_generic` has one type per key, in order, each the decayed `value_type` of that key. |
| `MultiIndexKey.Extractors` | include/boost/multi_index/key.hpp:101-102 | The extractor arguments of `composite_key` are one per key, in order, each that key's own extractor. |
| `MultiIndexKey.KeyImpl` | include/boost/multi_index/key.hpp:33-104 | The error is `NoKeys` exactly for zero keys. An unrecognised-key error happens exactly when some key is unrecognised, and it names the first. One key gives its bare extractor and its undecayed `value_type`. Two or more keys give a `composite_key` whose value type is `value_type` and is one of the keys' decayed value types, with one extractor per key, built from that key, in declared order. |
| `MultiIndexKey.CompositeKeyImpl` | include/boost/multi_index/key.hpp:92-104 | Once every key is classified, the only possible failure is unrelated value types. On success, the result is a `composite_key` over the resolved type, with the extractors in order. |
| `MultiIndexKey.KeyImplUsesLeastGeneric` | include/boost/multi_index/key.hpp:95-98 | For two or more recognised keys, `key_impl` succeeds exactly when `least_generic` over their decayed value types does, and its `value_type` is that result. |
| `MultiIndexKey.KeyImplResolvesLeftToRight` | include/boost/multi_index/key.hpp:78-104 | For two or more recognised keys, construction succeeds if and only if every step of the left fold over their decayed value types meets related types. Otherwise the error is unrelated value types. |
| `MultiIndexKey.CompositeValueTypeConvertsToEveryKey` | include/boost/multi_index/key.hpp:92-104 | If convertibility is a preorder, a composite key's value type converts to the decayed value type of each of its extractors. |
| `MultiIndexKey.SharedValueTypeResolves` | include/boost/multi_index/key.hpp:92-104 | Two or more keys of any mix of kinds whose decayed value types are all `t` resolve to `t`, given only `conv(t, t)`. |
| `MultiIndexKey.CompositeKeySize` | include/boost/multi_index/key.hpp:106-113 | `composite_key_size` of a `composite_key` whose arguments are the defaulted ones for some number of slots is that number of slots; in general it is the argument count less the value slot. |
| `MultiIndexKey.CompositeKeySizeIsSlotCount` | include/boost/multi_index/key.hpp:106-113 | `composite_key_size` of the defaulted `composite_key<void, void>` is its number of extractor slots. |
| `MultiIndexKey.LimitedSizeKeyImpl` | include/boost/multi_index/key.hpp:115-123 | Over the limit, the result is `TooManyKeys` with the count and the limit, whatever the keys are, because the check comes before resolution. Within the limit, the result is exactly `key_impl`'s `type` or its error. |
| `MultiIndexKey.Key` | include/boost/multi_index/key.hpp:127-128 | No keys gives `NoKeys`. More keys than the slot constant gives `TooManyKeys`. A named type needs 1 to `CompositeKeySlots` keys, and it is a bare extractor exactly when there is one key. Within the limit, the alias is exactly `key_impl`'s `type`, or its error. |
| `KeyExamples.MixedKindsResolveToPerson` | include/boost/multi_index/key.hpp:92-104 | A data member, a const member function and a free function taking `const Person&` resolve to `composite_key<Person, member, const_mem_fun, global_fun>`. The `global_fun` keeps its declared parameter. |
| `KeyExamples.SingleFunctionKeyKeepsDeclaredParam` | include/boost/multi_index/key.hpp:62-67 | A lone free-function key over `const Person&` is not wrapped, and its `value_type` is `const Person&`, not decayed. |
| `KeyExamples.DerivedAndBaseResolveToDerived` | include/boost/multi_index/key.hpp:86-88 | Keys over `Employee` and its base `Person` resolve to `Employee` in either order. |
| `KeyExamples.UnrelatedClassesAreRejected` | include/boost/multi_index/key.hpp:81-84 | Keys over the unrelated `Person` and `Left` name no type. |
| `KeyExamples.BottomFirstResolves` | include/boost/multi_index/key.hpp:78-90 | Keys over `Bottom`, `Left`, `Right` in that order resolve to `Bottom`. |
| `KeyExamples.BottomLastFails` | include/boost/multi_index/key.hpp:78-90 | The same keys in the order `Left`, `Right`, `Bottom` fail, so reordering can turn success into failure even under a preorder. |
| `KeyExamples.QualifiedMemberFunctionIsMember` | include/boost/multi_index/key.hpp:39-44 | A pointer to a `const noexcept` member function of `Person` is a `Type Person::*` and gives `member<Person, Type, ptr>`, alone or in a composite key with an `Employee` key, which resolves to `Employee`. |
| `KeyExamples.ArityLimits` | include/boost/multi_index/key.hpp:115-123 | No keys is rejected. Eleven keys are rejected by the limit of 10 even when one of them is not a pointer. |
| `KeyExamples.UnrecognizedKeyIsRejected` | include/boost/multi_index/key.hpp:92-98 | A key of unsupported shape, alone or among others, names no type, and the error gives its position. |

Two definitions carry no contract of their own. `Related` is the `static_assert` condition
of lines 81-84; `LeastGenericIsLeftFold` and `KeyImplResolvesLeftToRight` state what it
decides. `DefaultedCompositeKeyArgs` is the argument list of `composite_key<void, void>`
(line 106) with its defaulted extractor slots filled in; `CompositeKeySize` and
`CompositeKeySizeIsSlotCount` state what it means.

## Left out

- The behaviour of `member`, `const_mem_fun`, `mem_fun`, `global_fun` and `composite_key`, which is extracting key values from a record and comparing them. Those headers (lines 16-19) are not part of this model. Their extractors appear only as tags that carry their template arguments.
- The C++ type system. `std::decay_t` and `std::is_convertible_v` are parameters. Reflexivity and transitivity are assumptions, stated in the lemmas that need them.
- How C++ deduction matches an argument against the four partial specialisations. The model receives the shape already decided. `MemberFunPtr` stands for exactly `Type (Class::*)() const` and `Type (Class::*)()`. `DataMemberPtr` stands for every other pointer to member, including member functions with parameters or with a `noexcept`, `volatile` or reference qualifier. `OtherArg` stands for a value that matches none of lines 39-67, such as a pointer to a free function of two parameters. Whether a `noexcept` free function matches lines 62-67 is not modelled.
- The number of `composite_key` slots, which is configured in `composite_key.hpp`. It is the named constant `CompositeKeySlots`, set to 10 (the library's default). The lemmas about the guard take any limit.
- The `#if` guards (`_MSC_VER`, `__cplusplus>=201703L`), the include guard, and the wording of the `static_assert` messages.
- The set of errors. A compiler may report several diagnostics for one instantiation; the model reports one error per specification, the first in the order described above.
