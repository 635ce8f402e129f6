/**
  Type descriptors of the front end, as far as the builtin subsystem builds and
  inspects them, and the copy-on-write modifier addition of `add_type_modifier`.
 */
module Types {

  /** The declaration modifiers (`DM_*`) that the builtin subsystem uses.
      The C type `decl_modifiers_t` is a bit-set; it is modelled as a set of flags,
      so `(a & m) == m` is `m <= a` and `a | m` is `a + m`. */
  datatype DeclModifier = Const | Pure | NoReturn | Malloc | ReturnsTwice

  type DeclModifiers = set<DeclModifier>

  /** Atomic (and target-configured integer) types used by the catalog. */
  datatype Atomic =
    | Void | Char | UnsignedChar | UnsignedShort | Int | UnsignedInt
    | Long | UnsignedLong | LongLong | UnsignedLongLong
    | Float | Double | LongDouble
    | SizeT | Int32 | Int64 | UnsignedInt64

  datatype Qualifiers = Qualifiers(isConst: bool, isRestrict: bool)

  const NoQualifiers := Qualifiers(false, false)

  /** A type descriptor. A function type has a return type, an ordered parameter
      list, a variadic flag and a modifier set; a typedef is an alias that
      `skip_typeref` looks through. */
  datatype Ty =
    | AtomicTy(kind: Atomic, quals: Qualifiers)
    | PointerTy(pointee: Ty, quals: Qualifiers)
    | ComplexTy(elem: Atomic)
    | FunctionTy(ret: Ty, params: seq<Ty>, variadic: bool, modifiers: DeclModifiers)
    | TypedefTy(name: string, aliased: Ty)
    | VaListArgTy
    | TemplateTy

  /** `skip_typeref` returns a function type unchanged: a function type carries no
      alias indirection to strip. */
  ghost predicate FixesFunctionTypes(skip: Ty -> Ty)
  {
    forall t: Ty :: t.FunctionTy? ==> skip(t) == t
  }

  /** The type that `add_type_modifier(t, m)` yields, as a value: `t` itself when the
      function type behind it already has every bit of `m`, and otherwise a copy of
      that function type whose modifier set is the union. */
  function AddModifiers(t: Ty, m: DeclModifiers, skip: Ty -> Ty): (r: Ty)
    requires skip(t).FunctionTy?
    ensures r == t || r.FunctionTy?
  {
    var f := skip(t);
    if m <= f.modifiers then t else f.(modifiers := f.modifiers + m)
  }

  /** Adding modifiers never loses one: the function type behind the result has
      the old modifiers and the requested ones, and everything else of the
      function type is kept. */
  lemma AddModifiersContents(t: Ty, m: DeclModifiers, skip: Ty -> Ty)
    requires skip(t).FunctionTy? && FixesFunctionTypes(skip)
    ensures var r := AddModifiers(t, m, skip);
      && skip(r).FunctionTy?
      && skip(r).modifiers == skip(t).modifiers + m
      && skip(r).ret == skip(t).ret
      && skip(r).params == skip(t).params
      && skip(r).variadic == skip(t).variadic
  {
    var f := skip(t);
    if !(m <= f.modifiers) {
      var r := f.(modifiers := f.modifiers + m);
      assert r.FunctionTy?;
      assert skip(r) == r;
    } else {
      assert f.modifiers + m == f.modifiers;
    }
  }

  /** No new type is made exactly when every requested modifier is already present:
      otherwise the result differs from `t` (its modifier set grew, or `t` was an
      alias that the copy no longer is). */
  lemma AddModifiersSameExactlyWhenPresent(t: Ty, m: DeclModifiers, skip: Ty -> Ty)
    requires skip(t).FunctionTy? && FixesFunctionTypes(skip)
    ensures AddModifiers(t, m, skip) == t <==> m <= skip(t).modifiers
  {
    var f := skip(t);
    if !(m <= f.modifiers) {
      var r := f.(modifiers := f.modifiers + m);
      assert skip(r) == r && r.modifiers != f.modifiers;
    }
  }

  /** Applying the same modifiers twice gives the same type as applying them once. */
  lemma AddModifiersIdempotent(t: Ty, m: DeclModifiers, skip: Ty -> Ty)
    requires skip(t).FunctionTy? && FixesFunctionTypes(skip)
    ensures skip(AddModifiers(t, m, skip)).FunctionTy?
    ensures AddModifiers(AddModifiers(t, m, skip), m, skip) == AddModifiers(t, m, skip)
  {
    AddModifiersContents(t, m, skip);
  }

  /** Adding modifiers commutes: adding `a` then `b` gives the same function type
      as adding `b` then `a`, with the modifiers of both. */
  lemma AddModifiersCommute(t: Ty, a: DeclModifiers, b: DeclModifiers, skip: Ty -> Ty)
    requires skip(t).FunctionTy? && FixesFunctionTypes(skip)
    ensures skip(AddModifiers(t, a, skip)).FunctionTy? && skip(AddModifiers(t, b, skip)).FunctionTy?
    ensures skip(AddModifiers(AddModifiers(t, a, skip), b, skip))
         == skip(AddModifiers(AddModifiers(t, b, skip), a, skip))
         == skip(t).(modifiers := skip(t).modifiers + a + b)
  {
    AddModifiersContents(t, a, skip);
    AddModifiersContents(t, b, skip);
    AddModifiersContents(AddModifiers(t, a, skip), b, skip);
    AddModifiersContents(AddModifiers(t, b, skip), a, skip);
  }

  /** `make_function_type` with a fixed parameter list and no variadic part
      (`make_function_0_type`, `make_function_1_type`, `make_function_2_type`). */
  function Fn(ret: Ty, params: seq<Ty>, m: DeclModifiers): Ty
  {
    FunctionTy(ret, params, false, m)
  }

  /** `make_function_1_type_variadic`. */
  function FnVariadic(ret: Ty, params: seq<Ty>, m: DeclModifiers): Ty
  {
    FunctionTy(ret, params, true, m)
  }

  // The well-known atomic and pointer types the catalog composes.
  function Plain(k: Atomic): Ty { AtomicTy(k, NoQualifiers) }
  function ConstOf(k: Atomic): Ty { AtomicTy(k, Qualifiers(true, false)) }
  function Ptr(t: Ty): Ty { PointerTy(t, NoQualifiers) }
  function RestrictPtr(t: Ty): Ty { PointerTy(t, Qualifiers(false, true)) }

  const TVoid := Plain(Void)
  const TInt := Plain(Int)
  const TSize := Plain(SizeT)
  const TVoidPtr := Ptr(Plain(Void))
  const TConstVoidPtr := Ptr(ConstOf(Void))
  const TVoidPtrRestrict := RestrictPtr(Plain(Void))
  const TConstVoidPtrRestrict := RestrictPtr(ConstOf(Void))
  const TCharPtr := Ptr(Plain(Char))
  const TConstCharPtr := Ptr(ConstOf(Char))
  const TCharPtrRestrict := RestrictPtr(Plain(Char))
  const TConstCharPtrRestrict := RestrictPtr(ConstOf(Char))
  const TTemplatePtr := Ptr(TemplateTy)

}
