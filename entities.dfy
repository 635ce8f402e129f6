/**
  Entities of the global scope as the builtin subsystem creates and inspects them.
  Symbols, types and entities are referred to by their index in the session's
  stores (`Builtins.Session`), which stands for the pointer identity of the C code.
 */
module Entities {
  import opened Wrappers
  import opened Types

  /** An interned name: its index in the session's symbol store. */
  type Symbol = nat
  /** A canonical type instance: its index in the session's type store. */
  type TypeRef = nat
  /** An entity: its index in the session's entity store. */
  type EntityRef = nat

  /** `builtin_kind_t`: which family of builtin an entity belongs to. */
  datatype BuiltinKind =
    | BuiltinNone
    | BuiltinAlloca | BuiltinInf | BuiltinNan | BuiltinVaEnd | BuiltinExpect | BuiltinObjectSize
    | BuiltinFirm | BuiltinLibc | BuiltinLibcCheck
    | BuiltinCimag | BuiltinCreal | BuiltinRotl | BuiltinRotr

  /** `ir_builtin_kind`: the backend primitive a firm builtin lowers to (an opaque tag here). */
  datatype IrBuiltinKind =
    | Bswap | Clz | Ctz | Ffs | FrameAddress | Parity | Popcount | Prefetch
    | ReturnAddress | Trap | CompareSwap | MayAlias | Debugbreak | Inport | Outport

  datatype StorageClass = StorageNone | StorageExtern | StorageStatic | StorageTypedef | StorageAuto | StorageRegister

  datatype EntityKind = FunctionEntity | VariableEntity | TypedefEntity | OtherEntity

  /** The union `function.b`: a firm builtin's backend kind or a checked
      wrapper's size-argument position. */
  datatype BuiltinExtra = NoExtra | FirmKind(irKind: IrBuiltinKind) | ChkArgPos(pos: nat)

  /** A declaration. `mergedBuiltin` is the link `merge_into_decl` sets from a
      user declaration to the builtin record merged into it. */
  datatype Entity = Entity(
    kind: EntityKind,
    symbol: Option<Symbol>,
    storageClass: StorageClass,
    declaredStorageClass: StorageClass,
    typ: TypeRef,
    implicit: bool,
    btk: BuiltinKind,
    b: BuiltinExtra,
    builtinInLib: bool,
    actualName: Option<Symbol>,
    mergedBuiltin: Option<EntityRef>)

  /** The two non-fatal diagnostics of the declaration merger. */
  datatype Warning =
    | MustBeFunction(def: EntityRef)
    | IncompatibleDeclaration(def: EntityRef, declared: Ty, expected: Ty)

  /** The dialect flags that gate the merger. */
  datatype Dialect = Dialect(freestanding: bool, c99: bool)

  /** The record `create_builtin_function` allocates: a zero-initialised function
      entity with external storage, marked implicit and tagged with `kind`. */
  function BuiltinFunction(kind: BuiltinKind, symbol: Option<Symbol>, t: TypeRef): Entity
  {
    Entity(FunctionEntity, symbol, StorageExtern, StorageExtern, t, true, kind, NoExtra, false, None, None)
  }

}
