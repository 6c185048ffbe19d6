/** Key specifications over a small C++ class hierarchy:

      struct Person {
        int age;
        std::string full_name() const;
        std::string nick() const noexcept;
      };
      struct Employee : Person { int id; };
      struct Left   { int code() const; int weight; };
      struct Right  { int code() const; };
      struct Bottom : Left, Right { int code() const; };
      std::string extract_zip(const Person&);

    `&Employee::id` is an `int Employee::*`; an inherited member such as
    `&Employee::age` would be an `int Person::*` instead.

    `Decay` and `Convertible` play `std::decay_t` and
    `std::is_convertible_v<const A&, const B&>` for these types. */
module KeyExamples {
  import opened Wrappers
  import opened MultiIndexKey

  datatype CppType =
    | Person | Employee | Left | Right | Bottom | Int | String
    | Const(of: CppType)
    | LRef(to: CppType)
    | MemberFn(result: CppType, signature: nat)  // a member-function type other than R() and R() const

  function StripConst(t: CppType): CppType
  {
    if t.Const? then t.of else t
  }

  /** `std::decay_t`: drop a reference, then a top-level const. */
  function Decay(t: CppType): CppType
  {
    if t.LRef? then StripConst(t.to) else StripConst(t)
  }

  /** Public inheritance: Employee from Person, Bottom from Left and Right. */
  predicate DerivesFrom(d: CppType, b: CppType)
  {
    (d == Employee && b == Person) || (d == Bottom && (b == Left || b == Right))
  }

  /** `const A&` binds to `const B&` when A and B are the same class up to
      cv and reference, or A derives from B. */
  predicate Convertible(a: CppType, b: CppType)
  {
    Decay(a) == Decay(b) || DerivesFrom(Decay(a), Decay(b))
  }

  /** The convertibility of this hierarchy is a preorder, so the lemmas of
      MultiIndexKey that assume one apply to it. */
  lemma ConvertibleIsPreorder()
    ensures Reflexive(Convertible)
    ensures Transitive(Convertible)
  {
  }

  /** Keys of three kinds over one record type, in the manner of
      `key<&Person::age, &Person::full_name, &extract_zip>`; the free
      function's parameter is decayed for resolution but stays in its
      extractor as declared. */
  lemma MixedKindsResolveToPerson()
    ensures Key([DataMemberPtr(Person, Int, 0), MemberFunPtr(Person, String, true, 1),
                 FunctionPtr(LRef(Const(Person)), String, 2)], Decay, Convertible)
         == Ok(Composite(Person, [Member(Person, Int, 0), ConstMemFun(Person, String, 1),
                                  GlobalFun(LRef(Const(Person)), String, 2)]))
  {
    var keys := [DataMemberPtr(Person, Int, 0), MemberFunPtr(Person, String, true, 1),
                 FunctionPtr(LRef(Const(Person)), String, 2)];
    var singles := [SingleKey(Person, Member(Person, Int, 0)), SingleKey(Person, ConstMemFun(Person, String, 1)),
                    SingleKey(LRef(Const(Person)), GlobalFun(LRef(Const(Person)), String, 2))];
    ClassifyAllPointwise(keys, singles);
    var ts := DecayedValueTypes(singles, Decay);
    assert ts == [Person, Person, Person];
    LeastGenericKeepsFirst(ts, Convertible);
    assert Extractors(singles) == [Member(Person, Int, 0), ConstMemFun(Person, String, 1),
                                   GlobalFun(LRef(Const(Person)), String, 2)];
  }

  /** A lone free-function key is not wrapped, and its value type is the
      parameter type as declared, not decayed. */
  lemma SingleFunctionKeyKeepsDeclaredParam()
    ensures KeyImpl([FunctionPtr(LRef(Const(Person)), String, 2)], Decay, Convertible)
         == Ok(Resolved(LRef(Const(Person)), Single(GlobalFun(LRef(Const(Person)), String, 2))))
    ensures Key([FunctionPtr(LRef(Const(Person)), String, 2)], Decay, Convertible)
         == Ok(Single(GlobalFun(LRef(Const(Person)), String, 2)))
  {
  }

  /** A key over a derived class and one over its base resolve to the
      derived class, in either order. */
  lemma DerivedAndBaseResolveToDerived()
    ensures Key([DataMemberPtr(Employee, Int, 0), DataMemberPtr(Person, Int, 1)], Decay, Convertible)
         == Ok(Composite(Employee, [Member(Employee, Int, 0), Member(Person, Int, 1)]))
    ensures Key([DataMemberPtr(Person, Int, 1), DataMemberPtr(Employee, Int, 0)], Decay, Convertible)
         == Ok(Composite(Employee, [Member(Person, Int, 1), Member(Employee, Int, 0)]))
  {
    var down := [SingleKey(Employee, Member(Employee, Int, 0)), SingleKey(Person, Member(Person, Int, 1))];
    var up := [down[1], down[0]];
    ClassifyAllPointwise([DataMemberPtr(Employee, Int, 0), DataMemberPtr(Person, Int, 1)], down);
    ClassifyAllPointwise([DataMemberPtr(Person, Int, 1), DataMemberPtr(Employee, Int, 0)], up);
    assert DecayedValueTypes(down, Decay) == [Employee, Person];
    assert DecayedValueTypes(up, Decay) == [Person, Employee];
    MoreSpecificOfTwoWins(Employee, Person, Convertible);
    assert Extractors(down) == [Member(Employee, Int, 0), Member(Person, Int, 1)];
    assert Extractors(up) == [Member(Person, Int, 1), Member(Employee, Int, 0)];
  }

  /** Keys over unrelated classes name no type. */
  lemma UnrelatedClassesAreRejected()
    ensures Key([DataMemberPtr(Person, Int, 0), DataMemberPtr(Left, Int, 1)], Decay, Convertible)
         == Err(UnrelatedValueTypes)
  {
    var singles := [SingleKey(Person, Member(Person, Int, 0)), SingleKey(Left, Member(Left, Int, 1))];
    ClassifyAllPointwise([DataMemberPtr(Person, Int, 0), DataMemberPtr(Left, Int, 1)], singles);
    assert DecayedValueTypes(singles, Decay) == [Person, Left];
  }

  /** Only the declared order is tried.  With Bottom first, keys over Bottom,
      Left and Right resolve to Bottom ... */
  lemma BottomFirstResolves()
    ensures Key([MemberFunPtr(Bottom, Int, true, 0), MemberFunPtr(Left, Int, true, 1),
                 MemberFunPtr(Right, Int, true, 2)], Decay, Convertible)
         == Ok(Composite(Bottom, [ConstMemFun(Bottom, Int, 0), ConstMemFun(Left, Int, 1),
                                  ConstMemFun(Right, Int, 2)]))
  {
    var singles := [SingleKey(Bottom, ConstMemFun(Bottom, Int, 0)), SingleKey(Left, ConstMemFun(Left, Int, 1)),
                    SingleKey(Right, ConstMemFun(Right, Int, 2))];
    ClassifyAllPointwise([MemberFunPtr(Bottom, Int, true, 0), MemberFunPtr(Left, Int, true, 1),
                          MemberFunPtr(Right, Int, true, 2)], singles);
    assert DecayedValueTypes(singles, Decay) == [Bottom, Left, Right];
    LeastGenericKeepsFirst([Bottom, Left, Right], Convertible);
    assert Extractors(singles) == [ConstMemFun(Bottom, Int, 0), ConstMemFun(Left, Int, 1),
                                   ConstMemFun(Right, Int, 2)];
  }

  /** ... while with Bottom last the first step already meets the unrelated
      Left and Right, although convertibility is a preorder
      (ConvertibleIsPreorder) and Bottom converts to every other type. */
  lemma BottomLastFails()
    ensures Reflexive(Convertible) && Transitive(Convertible)
    ensures Key([MemberFunPtr(Left, Int, true, 1), MemberFunPtr(Right, Int, true, 2),
                 MemberFunPtr(Bottom, Int, true, 0)], Decay, Convertible)
         == Err(UnrelatedValueTypes)
  {
    ConvertibleIsPreorder();
    var singles := [SingleKey(Left, ConstMemFun(Left, Int, 1)), SingleKey(Right, ConstMemFun(Right, Int, 2)),
                    SingleKey(Bottom, ConstMemFun(Bottom, Int, 0))];
    ClassifyAllPointwise([MemberFunPtr(Left, Int, true, 1), MemberFunPtr(Right, Int, true, 2),
                          MemberFunPtr(Bottom, Int, true, 0)], singles);
    assert DecayedValueTypes(singles, Decay) == [Left, Right, Bottom];
    assert !Convertible(Left, Right) && !Convertible(Right, Left);
    assert LeastGeneric([Left, Right, Bottom], Convertible) == None;
  }

  /** A pointer to a member function whose type is not `R()` or `R() const`
      (here `std::string Person::nick() const noexcept`) is a pointer to
      member `Type Person::*` with `Type` that function type, so it gives a
      `member` extractor over Person; next to a key over Employee it
      resolves to Employee. */
  lemma QualifiedMemberFunctionIsMember()
    ensures Key([DataMemberPtr(Person, MemberFn(String, 0), 3)], Decay, Convertible)
         == Ok(Single(Member(Person, MemberFn(String, 0), 3)))
    ensures Key([DataMemberPtr(Person, MemberFn(String, 0), 3), DataMemberPtr(Employee, Int, 0)], Decay, Convertible)
         == Ok(Composite(Employee, [Member(Person, MemberFn(String, 0), 3), Member(Employee, Int, 0)]))
  {
    var singles := [SingleKey(Person, Member(Person, MemberFn(String, 0), 3)), SingleKey(Employee, Member(Employee, Int, 0))];
    ClassifyAllPointwise([DataMemberPtr(Person, MemberFn(String, 0), 3), DataMemberPtr(Employee, Int, 0)], singles);
    assert DecayedValueTypes(singles, Decay) == [Person, Employee];
    MoreSpecificOfTwoWins(Employee, Person, Convertible);
    assert Extractors(singles) == [Member(Person, MemberFn(String, 0), 3), Member(Employee, Int, 0)];
  }

  /** The arity guard: no keys, and one key more than composite_key has
      slots, even when that key is not a pointer at all. */
  lemma ArityLimits()
    ensures Key<CppType>([], Decay, Convertible) == Err(NoKeys)
    ensures Key(seq(10, (i: nat) => DataMemberPtr(Person, Int, i)) + [OtherArg(0)], Decay, Convertible)
         == Err(TooManyKeys(11, 10))
  {
  }

  /** A key that is not a pointer of a supported shape, alone or among
      others, names no type. */
  lemma UnrecognizedKeyIsRejected()
    ensures Key<CppType>([OtherArg(7)], Decay, Convertible) == Err(UnrecognizedKey(0))
    ensures Key([DataMemberPtr(Person, Int, 0), OtherArg(7), DataMemberPtr(Left, Int, 1)], Decay, Convertible)
         == Err(UnrecognizedKey(1))
  {
  }
}
