/**
  The builtin catalog as data: one entry per call of `create_gnu_builtins` and
  `create_microsoft_intrinsics`, each naming the shape (the creation function the
  C code calls), the name argument and the function type built for it. The
  registration loop in `Builtins.Session` consumes these tables.
 */
module Catalog {
  import opened Wrappers
  import opened Types
  import opened Entities

  /** One catalog line, by the creation function it goes through. */
  datatype Entry =
    | GnuEntry(kind: BuiltinKind, name: string, sig: Ty)             // create_gnu_builtin
    | GnuFirmEntry(irKind: IrBuiltinKind, name: string, sig: Ty)     // create_gnu_builtin_firm
    | FirmEntry(irKind: IrBuiltinKind, name: string, sig: Ty)        // create_builtin_firm, create_intrinsic_firm
    | LibcEntry(name: string, sig: Ty)                               // create_gnu_builtin_libc
    | ChkEntry(name: string, chkArgPos: nat, sig: Ty)                // create_gnu_builtin_chk
    | IntrinsicEntry(kind: BuiltinKind, name: string, sig: Ty)       // create_intrinsic

  /** The text of the symbol the entity is recorded under. */
  function SymbolText(e: Entry): string
  {
    match e
    case GnuEntry(_, n, _) => "__builtin_" + n
    case GnuFirmEntry(_, n, _) => "__builtin_" + n
    case FirmEntry(_, n, _) => n
    case LibcEntry(n, _) => "__builtin_" + n
    case ChkEntry(n, _, _) => "__builtin___" + n + "_chk"
    case IntrinsicEntry(_, n, _) => n
  }

  /** The `btk` tag the entity carries. */
  function Kind(e: Entry): BuiltinKind
  {
    match e
    case GnuEntry(k, _, _) => k
    case GnuFirmEntry(_, _, _) => BuiltinFirm
    case FirmEntry(_, _, _) => BuiltinFirm
    case LibcEntry(_, _) => BuiltinLibc
    case ChkEntry(_, _, _) => BuiltinLibcCheck
    case IntrinsicEntry(k, _, _) => k
  }

  /** What the entity stores in the union `function.b`. */
  function Extra(e: Entry): BuiltinExtra
  {
    match e
    case GnuFirmEntry(k, _, _) => FirmKind(k)
    case FirmEntry(k, _, _) => FirmKind(k)
    case ChkEntry(_, pos, _) => ChkArgPos(pos)
    case _ => NoExtra
  }

  /** Whether the entity wraps a libc function (`builtin_in_lib`). */
  predicate InLib(e: Entry)
  {
    e.LibcEntry? || e.ChkEntry?
  }

  /** The text of the `actual_name` symbol, for the libc wrappers. */
  function ActualName(e: Entry): Option<string>
  {
    if InLib(e) then Some(e.name) else None
  }

  /** `create_gnu_builtin` entries (src/parser/builtins.c:101-113). */
  const GnuBuiltinTable: seq<Entry> := [
    GnuEntry(BuiltinAlloca, "alloca", Fn(TVoidPtr, [TSize], {})),
    GnuEntry(BuiltinInf, "huge_val", Fn(Plain(Double), [], {Const})),
    GnuEntry(BuiltinInf, "huge_valf", Fn(Plain(Float), [], {Const})),
    GnuEntry(BuiltinInf, "huge_vall", Fn(Plain(LongDouble), [], {Const})),
    GnuEntry(BuiltinInf, "inf", Fn(Plain(Double), [], {Const})),
    GnuEntry(BuiltinInf, "inff", Fn(Plain(Float), [], {Const})),
    GnuEntry(BuiltinInf, "infl", Fn(Plain(LongDouble), [], {Const})),
    GnuEntry(BuiltinNan, "nan", Fn(Plain(Double), [TCharPtr], {Const})),
    GnuEntry(BuiltinNan, "nanf", Fn(Plain(Float), [TCharPtr], {Const})),
    GnuEntry(BuiltinNan, "nanl", Fn(Plain(LongDouble), [TCharPtr], {Const})),
    GnuEntry(BuiltinVaEnd, "va_end", Fn(TVoid, [VaListArgTy], {})),
    GnuEntry(BuiltinExpect, "expect", Fn(Plain(Long), [Plain(Long), Plain(Long)], {Const})),
    GnuEntry(BuiltinObjectSize, "object_size", Fn(TSize, [TVoidPtr, TInt], {Const}))
  ]

  /** `create_gnu_builtin_firm` entries (src/parser/builtins.c:117-137). */
  const GnuFirmTable: seq<Entry> := [
    GnuFirmEntry(Bswap, "bswap32", Fn(Plain(Int32), [Plain(Int32)], {Const})),
    GnuFirmEntry(Bswap, "bswap64", Fn(Plain(Int64), [Plain(Int64)], {Const})),
    GnuFirmEntry(Clz, "clz", Fn(TInt, [Plain(UnsignedInt)], {Const})),
    GnuFirmEntry(Clz, "clzl", Fn(TInt, [Plain(UnsignedLong)], {Const})),
    GnuFirmEntry(Clz, "clzll", Fn(TInt, [Plain(UnsignedLongLong)], {Const})),
    GnuFirmEntry(Ctz, "ctz", Fn(TInt, [Plain(UnsignedInt)], {Const})),
    GnuFirmEntry(Ctz, "ctzl", Fn(TInt, [Plain(UnsignedLong)], {Const})),
    GnuFirmEntry(Ctz, "ctzll", Fn(TInt, [Plain(UnsignedLongLong)], {Const})),
    GnuFirmEntry(Ffs, "ffs", Fn(TInt, [Plain(UnsignedInt)], {Const})),
    GnuFirmEntry(Ffs, "ffsl", Fn(TInt, [Plain(UnsignedLong)], {Const})),
    GnuFirmEntry(Ffs, "ffsll", Fn(TInt, [Plain(UnsignedLongLong)], {Const})),
    GnuFirmEntry(FrameAddress, "frame_address", Fn(TVoidPtr, [Plain(UnsignedInt)], {Const})),
    GnuFirmEntry(Parity, "parity", Fn(TInt, [Plain(UnsignedInt)], {Const})),
    GnuFirmEntry(Parity, "parityl", Fn(TInt, [Plain(UnsignedLong)], {Const})),
    GnuFirmEntry(Parity, "parityll", Fn(TInt, [Plain(UnsignedLongLong)], {Const})),
    GnuFirmEntry(Popcount, "popcount", Fn(TInt, [Plain(UnsignedInt)], {Const})),
    GnuFirmEntry(Popcount, "popcountl", Fn(TInt, [Plain(UnsignedLong)], {Const})),
    GnuFirmEntry(Popcount, "popcountll", Fn(TInt, [Plain(UnsignedLongLong)], {Const})),
    GnuFirmEntry(Prefetch, "prefetch", FnVariadic(Plain(Float), [TVoidPtr], {})),
    GnuFirmEntry(ReturnAddress, "return_address", Fn(TVoidPtr, [Plain(UnsignedInt)], {Const})),
    GnuFirmEntry(Trap, "trap", Fn(TVoid, [], {NoReturn}))
  ]

  /** `create_builtin_firm` entries (src/parser/builtins.c:142-143). */
  const SyncTable: seq<Entry> := [
    FirmEntry(CompareSwap, "__sync_val_compare_and_swap", Fn(TemplateTy, [TTemplatePtr, TemplateTy, TemplateTy], {})),
    FirmEntry(MayAlias, "__builtin_may_alias", Fn(TInt, [TConstVoidPtr, TConstVoidPtr], {}))
  ]

  /** `create_gnu_builtin_libc` entries (src/parser/builtins.c:146-167). */
  const LibcTable: seq<Entry> := [
    LibcEntry("abort", Fn(TVoid, [], {NoReturn})),
    LibcEntry("abs", Fn(TInt, [TInt], {Const})),
    LibcEntry("atan2l", Fn(Plain(LongDouble), [Plain(LongDouble), Plain(LongDouble)], {Const})),
    LibcEntry("exit", Fn(TVoid, [TInt], {NoReturn})),
    LibcEntry("fabs", Fn(Plain(Double), [Plain(Double)], {Const})),
    LibcEntry("fabsf", Fn(Plain(Float), [Plain(Float)], {Const})),
    LibcEntry("fabsl", Fn(Plain(LongDouble), [Plain(LongDouble)], {Const})),
    LibcEntry("labs", Fn(Plain(Long), [Plain(Long)], {Const})),
    LibcEntry("llabs", Fn(Plain(LongLong), [Plain(LongLong)], {Const})),
    LibcEntry("malloc", Fn(TVoidPtr, [TSize], {Malloc})),
    LibcEntry("memcmp", Fn(TInt, [TConstVoidPtr, TConstVoidPtr, TSize], {Pure})),
    LibcEntry("memcpy", Fn(TVoidPtr, [TVoidPtrRestrict, TConstVoidPtrRestrict, TSize], {})),
    LibcEntry("memmove", Fn(TVoidPtr, [TVoidPtrRestrict, TConstVoidPtrRestrict, TSize], {})),
    LibcEntry("memset", Fn(TVoidPtr, [TVoidPtr, TInt, TSize], {})),
    LibcEntry("stpcpy", Fn(TCharPtr, [TCharPtrRestrict, TConstCharPtrRestrict], {})),
    LibcEntry("strcat", Fn(TCharPtr, [TCharPtrRestrict, TConstCharPtrRestrict], {})),
    LibcEntry("strchr", Fn(TCharPtr, [TConstCharPtr, TInt], {})),
    LibcEntry("strcmp", Fn(TInt, [TConstCharPtr, TConstCharPtr], {Pure})),
    LibcEntry("strcpy", Fn(TCharPtr, [TCharPtrRestrict, TConstCharPtrRestrict], {})),
    LibcEntry("strlen", Fn(TSize, [TConstCharPtr], {Pure})),
    LibcEntry("strncat", Fn(TCharPtr, [TCharPtrRestrict, TConstCharPtrRestrict, TSize], {})),
    LibcEntry("strncpy", Fn(TCharPtr, [TCharPtrRestrict, TConstCharPtrRestrict, TSize], {}))
  ]

  /** `create_gnu_builtin_chk` entries (src/parser/builtins.c:170-178). */
  const ChkTable: seq<Entry> := [
    ChkEntry("memcpy", 3, Fn(TVoidPtr, [TVoidPtrRestrict, TConstVoidPtrRestrict, TSize, TSize], {})),
    ChkEntry("memmove", 3, Fn(TVoidPtr, [TVoidPtrRestrict, TConstVoidPtrRestrict, TSize, TSize], {})),
    ChkEntry("memset", 3, Fn(TVoidPtr, [TVoidPtr, TInt, TSize, TSize], {})),
    ChkEntry("stpcpy", 2, Fn(TCharPtr, [TCharPtrRestrict, TConstCharPtrRestrict, TSize], {})),
    ChkEntry("stpncpy", 3, Fn(TCharPtr, [TCharPtrRestrict, TConstCharPtrRestrict, TSize, TSize], {})),
    ChkEntry("strcat", 2, Fn(TCharPtr, [TCharPtrRestrict, TConstCharPtrRestrict, TSize], {})),
    ChkEntry("strcpy", 2, Fn(TCharPtr, [TCharPtrRestrict, TConstCharPtrRestrict, TSize], {})),
    ChkEntry("strncat", 3, Fn(TCharPtr, [TCharPtrRestrict, TConstCharPtrRestrict, TSize, TSize], {})),
    ChkEntry("strncpy", 3, Fn(TCharPtr, [TCharPtrRestrict, TConstCharPtrRestrict, TSize, TSize], {}))
  ]

  /** `create_intrinsic` entries (src/parser/builtins.c:268-271). */
  const RotateTable: seq<Entry> := [
    IntrinsicEntry(BuiltinRotl, "_rotl", Fn(Plain(UnsignedInt), [Plain(UnsignedInt), TInt], {Const})),
    IntrinsicEntry(BuiltinRotl, "_rotl64", Fn(Plain(UnsignedInt64), [Plain(UnsignedInt64), TInt], {Const})),
    IntrinsicEntry(BuiltinRotr, "_rotr", Fn(Plain(UnsignedInt), [Plain(UnsignedInt), TInt], {Const})),
    IntrinsicEntry(BuiltinRotr, "_rotr64", Fn(Plain(UnsignedInt64), [Plain(UnsignedInt64), TInt], {Const}))
  ]

  /** `create_intrinsic_firm` entries (src/parser/builtins.c:273-288). */
  const MicrosoftFirmTable: seq<Entry> := [
    FirmEntry(Bswap, "_byteswap_ushort", Fn(Plain(UnsignedShort), [Plain(UnsignedShort)], {Const})),
    FirmEntry(Bswap, "_byteswap_ulong", Fn(Plain(UnsignedLong), [Plain(UnsignedLong)], {Const})),
    FirmEntry(Bswap, "_byteswap_uint64", Fn(Plain(UnsignedInt64), [Plain(UnsignedInt64)], {Const})),
    FirmEntry(Debugbreak, "__debugbreak", Fn(TVoid, [], {})),
    FirmEntry(ReturnAddress, "_ReturnAddress", Fn(TVoidPtr, [], {})),
    FirmEntry(Popcount, "__popcount", Fn(Plain(UnsignedInt), [Plain(UnsignedInt)], {Const})),
    FirmEntry(Inport, "__inbyte", Fn(Plain(UnsignedChar), [Plain(UnsignedShort)], {})),
    FirmEntry(Inport, "__inword", Fn(Plain(UnsignedShort), [Plain(UnsignedShort)], {})),
    FirmEntry(Inport, "__indword", Fn(Plain(UnsignedLong), [Plain(UnsignedShort)], {})),
    FirmEntry(Outport, "__outbyte", Fn(TVoid, [Plain(UnsignedShort), Plain(UnsignedChar)], {})),
    FirmEntry(Outport, "__outword", Fn(TVoid, [Plain(UnsignedShort), Plain(UnsignedShort)], {})),
    FirmEntry(Outport, "__outdword", Fn(TVoid, [Plain(UnsignedShort), Plain(UnsignedLong)], {})),
    FirmEntry(Trap, "__ud2", Fn(TVoid, [], {NoReturn}))
  ]


  /** `create_gnu_builtins`, in source order. */
  const GnuBuiltins: seq<Entry> := GnuBuiltinTable + GnuFirmTable + SyncTable + LibcTable + ChkTable

  /** `create_microsoft_intrinsics`, in source order. */
  const MicrosoftIntrinsics: seq<Entry> := RotateTable + MicrosoftFirmTable

  /** A merge that `find_known_libc_functions` attempts on an existing declaration. */
  datatype MergeEntry = MergeEntry(name: string, kind: BuiltinKind, sig: Ty)

  /** The complex-number accessors, attempted only under C99 (src/parser/builtins.c:221-243). */
  const ComplexMerges: seq<MergeEntry> := [
    MergeEntry("cimag", BuiltinCimag, Fn(Plain(Double), [ComplexTy(Double)], {Const})),
    MergeEntry("cimagf", BuiltinCimag, Fn(Plain(Float), [ComplexTy(Float)], {Const})),
    MergeEntry("cimagl", BuiltinCimag, Fn(Plain(LongDouble), [ComplexTy(LongDouble)], {Const})),
    MergeEntry("creal", BuiltinCreal, Fn(Plain(Double), [ComplexTy(Double)], {Const})),
    MergeEntry("crealf", BuiltinCreal, Fn(Plain(Float), [ComplexTy(Float)], {Const})),
    MergeEntry("creall", BuiltinCreal, Fn(Plain(LongDouble), [ComplexTy(LongDouble)], {Const}))
  ]

  /** No two entries of `t` are recorded under the same symbol text. */
  predicate DistinctNames(t: seq<Entry>)
  {
    forall i, j :: 0 <= i < j < |t| ==> SymbolText(t[i]) != SymbolText(t[j])
  }

  /** No entry of `a` shares its symbol text with an entry of `b`. */
  predicate DisjointNames(a: seq<Entry>, b: seq<Entry>)
  {
    forall i, j :: 0 <= i < |a| && 0 <= j < |b| ==> SymbolText(a[i]) != SymbolText(b[j])
  }

  lemma DistinctNamesConcat(a: seq<Entry>, b: seq<Entry>)
    requires DistinctNames(a) && DistinctNames(b) && DisjointNames(a, b)
    ensures DistinctNames(a + b)
  {
    var t := a + b;
    forall i, j | 0 <= i < j < |t| ensures SymbolText(t[i]) != SymbolText(t[j]) {
      if j < |a| {
        assert t[i] == a[i] && t[j] == a[j];
      } else if i >= |a| {
        assert t[i] == b[i - |a|] && t[j] == b[j - |a|];
      } else {
        assert t[i] == a[i] && t[j] == b[j - |a|];
      }
    }
  }

  lemma DisjointNamesConcat(a: seq<Entry>, b: seq<Entry>, c: seq<Entry>)
    requires DisjointNames(a, c) && DisjointNames(b, c)
    ensures DisjointNames(a + b, c)
  {
    var t := a + b;
    forall i, j | 0 <= i < |t| && 0 <= j < |c| ensures SymbolText(t[i]) != SymbolText(c[j]) {
      if i < |a| { assert t[i] == a[i]; } else { assert t[i] == b[i - |a|]; }
    }
  }

  /** The entry's symbol is built by `obstack_printf` with a `__builtin_` prefix. */
  predicate GnuShaped(e: Entry)
  {
    !e.FirmEntry? && !e.IntrinsicEntry?
  }

  /** What follows `__builtin_` in the symbol of a gnu-shaped entry. */
  function GnuSuffix(e: Entry): string
    requires GnuShaped(e)
  {
    if e.ChkEntry? then "__" + e.name + "_chk" else e.name
  }

  lemma GnuSymbolText(e: Entry)
    requires GnuShaped(e)
    ensures SymbolText(e) == "__builtin_" + GnuSuffix(e)
  {
    if e.ChkEntry? {
      assert "__builtin___" + e.name + "_chk" == "__builtin_" + ("__" + e.name + "_chk");
    }
  }

  /** Two gnu-shaped entries with different suffixes have different symbols. */
  lemma GnuSuffixDecides(e1: Entry, e2: Entry)
    requires GnuShaped(e1) && GnuShaped(e2) && GnuSuffix(e1) != GnuSuffix(e2)
    ensures SymbolText(e1) != SymbolText(e2)
  {
    GnuSymbolText(e1);
    GnuSymbolText(e2);
    var p := "__builtin_";
    assert (p + GnuSuffix(e1))[10..] == GnuSuffix(e1);
    assert (p + GnuSuffix(e2))[10..] == GnuSuffix(e2);
  }

  lemma ChkSuffixInjective(a: string, b: string)
    requires a != b
    ensures "__" + a + "_chk" != "__" + b + "_chk"
  {
    var x, y := "__" + a + "_chk", "__" + b + "_chk";
    if |a| == |b| {
      assert x[2..2 + |a|] == a;
      assert y[2..2 + |a|] == b;
    }
  }

  /** Distinct suffixes within one table of gnu-shaped entries. */
  lemma DistinctBySuffix(t: seq<Entry>)
    requires forall i :: 0 <= i < |t| ==> GnuShaped(t[i])
    requires forall i, j :: 0 <= i < j < |t| ==> GnuSuffix(t[i]) != GnuSuffix(t[j])
    ensures DistinctNames(t)
  {
    forall i, j | 0 <= i < j < |t| ensures SymbolText(t[i]) != SymbolText(t[j]) {
      GnuSuffixDecides(t[i], t[j]);
    }
  }

  /** Disjoint suffixes across two tables of gnu-shaped entries. */
  lemma DisjointBySuffix(a: seq<Entry>, b: seq<Entry>)
    requires forall i :: 0 <= i < |a| ==> GnuShaped(a[i])
    requires forall j :: 0 <= j < |b| ==> GnuShaped(b[j])
    requires forall i, j :: 0 <= i < |a| && 0 <= j < |b| ==> GnuSuffix(a[i]) != GnuSuffix(b[j])
    ensures DisjointNames(a, b)
  {
    forall i, j | 0 <= i < |a| && 0 <= j < |b| ensures SymbolText(a[i]) != SymbolText(b[j]) {
      GnuSuffixDecides(a[i], b[j]);
    }
  }

  /** Entries whose symbol is `__builtin_` followed by a bare name that does not
      start with `_`. */
  predicate PlainPrefixed(t: seq<Entry>)
  {
    forall i :: 0 <= i < |t| ==> (t[i].GnuEntry? || t[i].GnuFirmEntry? || t[i].LibcEntry?) && t[i].name != [] && t[i].name[0] != '_'
  }

  /** The checked wrappers: their suffix starts with `_`. */
  lemma ChkSuffixes()
    ensures forall j :: 0 <= j < |ChkTable| ==> GnuShaped(ChkTable[j]) && GnuSuffix(ChkTable[j])[0] == '_'
  {
  }

  lemma ChkDistinct()
    ensures DistinctNames(ChkTable)
  {
    ChkTableNamed();
    ChkNamesDistinct();
    var c := ChkTable;
    forall i, j | 0 <= i < j < |c| ensures GnuSuffix(c[i]) != GnuSuffix(c[j]) {
      ChkSuffixInjective(c[i].name, c[j].name);
    }
    DistinctBySuffix(c);
  }

  /** A plain-prefixed table and the checked wrappers never share a symbol. */
  lemma DisjointFromChk(t: seq<Entry>)
    requires PlainPrefixed(t)
    ensures DisjointNames(t, ChkTable)
  {
    ChkSuffixes();
    DisjointBySuffix(t, ChkTable);
  }

  /** The two verbatim names of `create_builtin_firm` in `create_gnu_builtins`. */
  lemma SyncNames()
    ensures SymbolText(SyncTable[0]) == "__sync_val_compare_and_swap"
    ensures SymbolText(SyncTable[1]) == "__builtin_" + "may_alias"
    ensures |SyncTable| == 2 && DistinctNames(SyncTable)
  {
  }

  /** No `__builtin_` spelling is the verbatim `__sync_val_compare_and_swap`. */
  lemma BuiltinSpellingNotSync(x: string)
    ensures "__builtin_" + x != "__sync_val_compare_and_swap"
  {
    assert ("__builtin_" + x)[2] == 'b';
  }

  /** `__builtin_` followed by different suffixes gives different spellings. */
  lemma BuiltinSpellingInjective(x: string, y: string)
    requires x != y
    ensures "__builtin_" + x != "__builtin_" + y
  {
    var p := "__builtin_";
    assert (p + x)[10..] == x;
    assert (p + y)[10..] == y;
  }

  /** Gnu-shaped entries whose suffix is not `may_alias` share no symbol with
      `SyncTable`. */
  lemma DisjointFromSync(t: seq<Entry>)
    requires forall i :: 0 <= i < |t| ==> GnuShaped(t[i]) && GnuSuffix(t[i]) != "may_alias"
    ensures DisjointNames(t, SyncTable)
  {
    SyncNames();
    forall i | 0 <= i < |t|
      ensures SymbolText(t[i]) != SymbolText(SyncTable[0]) && SymbolText(t[i]) != SymbolText(SyncTable[1])
    {
      GnuSymbolText(t[i]);
      BuiltinSpellingNotSync(GnuSuffix(t[i]));
      BuiltinSpellingInjective(GnuSuffix(t[i]), "may_alias");
    }
  }

  lemma DisjointSymmetric(a: seq<Entry>, b: seq<Entry>)
    requires DisjointNames(a, b)
    ensures DisjointNames(b, a)
  {
  }

  // Distinctness of the catalog's names. Comparing string literals is costly for
  // the solver, so the bare names of each table are listed once, tied to the
  // table, and compared in small groups.

  /** `names` lists the bare names of `t`, in order. */
  predicate NamedBy(t: seq<Entry>, names: seq<string>)
  {
    |t| == |names| && forall i :: 0 <= i < |t| ==> t[i].name == names[i]
  }

  predicate Distinct(names: seq<string>)
  {
    forall i, j :: 0 <= i < j < |names| ==> names[i] != names[j]
  }

  predicate Disjoint(a: seq<string>, b: seq<string>)
  {
    forall i, j :: 0 <= i < |a| && 0 <= j < |b| ==> a[i] != b[j]
  }

  /** Names that follow `__builtin_` directly: not empty, not starting with `_`
      and not `may_alias`. */
  predicate Bare(names: seq<string>)
  {
    forall i :: 0 <= i < |names| ==> names[i] != [] && names[i][0] != '_' && names[i] != "may_alias"
  }

  const GnuBuiltinNames: seq<string> := [
    "alloca", "huge_val", "huge_valf", "huge_vall", "inf", "inff", "infl", "nan", "nanf", "nanl",
    "va_end", "expect", "object_size"
  ]

  lemma GnuBuiltinTableNamed()
    ensures NamedBy(GnuBuiltinTable, GnuBuiltinNames)
    ensures forall i :: 0 <= i < |GnuBuiltinTable| ==> GnuBuiltinTable[i].GnuEntry?
  {
  }

  const GnuFirmNames: seq<string> := GnuFirmNamesLow + GnuFirmNamesHigh
  const GnuFirmNamesLow: seq<string> := [
    "bswap32", "bswap64", "clz", "clzl", "clzll", "ctz", "ctzl", "ctzll", "ffs", "ffsl"
  ]
  const GnuFirmNamesHigh: seq<string> := [
    "ffsll", "frame_address", "parity", "parityl", "parityll", "popcount", "popcountl",
    "popcountll", "prefetch", "return_address", "trap"
  ]

  lemma GnuFirmTableNamed()
    ensures NamedBy(GnuFirmTable, GnuFirmNames)
    ensures forall i :: 0 <= i < |GnuFirmTable| ==> GnuFirmTable[i].GnuFirmEntry?
  {
  }

  const LibcNames: seq<string> := LibcNamesLow + LibcNamesHigh
  const LibcNamesLow: seq<string> := [
    "abort", "abs", "atan2l", "exit", "fabs", "fabsf", "fabsl", "labs", "llabs", "malloc", "memcmp"
  ]
  const LibcNamesHigh: seq<string> := [
    "memcpy", "memmove", "memset", "stpcpy", "strcat", "strchr", "strcmp", "strcpy", "strlen",
    "strncat", "strncpy"
  ]

  lemma LibcTableNamed()
    ensures NamedBy(LibcTable, LibcNames)
    ensures forall i :: 0 <= i < |LibcTable| ==> LibcTable[i].LibcEntry?
  {
  }

  const ChkNames: seq<string> := [
    "memcpy", "memmove", "memset", "stpcpy", "stpncpy", "strcat", "strcpy", "strncat", "strncpy"
  ]

  lemma ChkTableNamed()
    ensures NamedBy(ChkTable, ChkNames)
    ensures forall i :: 0 <= i < |ChkTable| ==> ChkTable[i].ChkEntry?
  {
  }

  const RotateNames: seq<string> := [
    "_rotl", "_rotl64", "_rotr", "_rotr64"
  ]

  lemma RotateTableNamed()
    ensures NamedBy(RotateTable, RotateNames)
    ensures forall i :: 0 <= i < |RotateTable| ==> RotateTable[i].IntrinsicEntry?
  {
  }

  const MicrosoftFirmNames: seq<string> := [
    "_byteswap_ushort", "_byteswap_ulong", "_byteswap_uint64", "__debugbreak", "_ReturnAddress",
    "__popcount", "__inbyte", "__inword", "__indword", "__outbyte", "__outword", "__outdword",
    "__ud2"
  ]

  lemma MicrosoftFirmTableNamed()
    ensures NamedBy(MicrosoftFirmTable, MicrosoftFirmNames)
    ensures forall i :: 0 <= i < |MicrosoftFirmTable| ==> MicrosoftFirmTable[i].FirmEntry?
  {
  }

  lemma GnuBuiltinNamesBare()
    ensures Distinct(GnuBuiltinNames) && Bare(GnuBuiltinNames)
  {
  }

  /** Two lists of names concatenate to a distinct list when each is distinct
      and no name occurs in both. */
  lemma DistinctConcat(a: seq<string>, b: seq<string>)
    requires Distinct(a) && Distinct(b) && Disjoint(a, b)
    ensures Distinct(a + b)
  {
    var t := a + b;
    forall i, j | 0 <= i < j < |t| ensures t[i] != t[j] {
      if j < |a| {
        assert t[i] == a[i] && t[j] == a[j];
      } else if |a| <= i {
        assert t[i] == b[i - |a|] && t[j] == b[j - |a|];
      } else {
        assert t[i] == a[i] && t[j] == b[j - |a|];
      }
    }
  }

  lemma GnuFirmNamesBare()
    ensures Bare(GnuFirmNames)
  {
  }

  lemma GnuFirmNamesParts()
    ensures Distinct(GnuFirmNamesLow) && Distinct(GnuFirmNamesHigh)
  {
  }

  lemma GnuFirmNamesPartsDisjoint()
    ensures Disjoint(GnuFirmNamesLow, GnuFirmNamesHigh)
  {
  }

  lemma GnuFirmNamesDistinct()
    ensures Distinct(GnuFirmNames)
  {
    GnuFirmNamesParts();
    GnuFirmNamesPartsDisjoint();
    DistinctConcat(GnuFirmNamesLow, GnuFirmNamesHigh);
  }

  lemma LibcNamesBare()
    ensures Bare(LibcNames)
  {
  }

  lemma LibcNamesParts()
    ensures Distinct(LibcNamesLow) && Distinct(LibcNamesHigh)
  {
  }

  lemma LibcNamesPartsDisjoint()
    ensures Disjoint(LibcNamesLow, LibcNamesHigh)
  {
  }

  lemma LibcNamesDistinct()
    ensures Distinct(LibcNames)
  {
    LibcNamesParts();
    LibcNamesPartsDisjoint();
    DistinctConcat(LibcNamesLow, LibcNamesHigh);
  }

  /** A list of names shares none with two lists when it shares none with either. */
  lemma DisjointConcat(a: seq<string>, b: seq<string>, c: seq<string>)
    requires Disjoint(a, b) && Disjoint(a, c)
    ensures Disjoint(a, b + c)
  {
    forall i, j | 0 <= i < |a| && 0 <= j < |b + c| ensures a[i] != (b + c)[j] {
      if j < |b| {
        assert (b + c)[j] == b[j];
      } else {
        assert (b + c)[j] == c[j - |b|];
      }
    }
  }

  lemma GnuBuiltinFirmNamesParts()
    ensures Disjoint(GnuBuiltinNames, GnuFirmNamesLow) && Disjoint(GnuBuiltinNames, GnuFirmNamesHigh)
  {
  }

  lemma GnuFirmNamesDisjoint()
    ensures Disjoint(GnuBuiltinNames, GnuFirmNames)
  {
    GnuBuiltinFirmNamesParts();
    DisjointConcat(GnuBuiltinNames, GnuFirmNamesLow, GnuFirmNamesHigh);
  }

  lemma GnuLibcNamesParts()
    ensures Disjoint(GnuBuiltinNames, LibcNamesLow) && Disjoint(GnuBuiltinNames, LibcNamesHigh)
  {
  }

  lemma GnuLibcNamesDisjoint()
    ensures Disjoint(GnuBuiltinNames, LibcNames)
  {
    GnuLibcNamesParts();
    DisjointConcat(GnuBuiltinNames, LibcNamesLow, LibcNamesHigh);
  }

  lemma FirmLibcNamesDisjoint()
    ensures Disjoint(GnuFirmNames, LibcNames)
  {
  }

  lemma ChkNamesDistinct()
    ensures Distinct(ChkNames)
  {
  }

  lemma MicrosoftNamesDistinct()
    ensures Distinct(RotateNames + MicrosoftFirmNames)
  {
  }

  /** The facts about a plain-prefixed table follow from its list of names. */
  lemma PlainTableByNames(t: seq<Entry>, names: seq<string>)
    requires NamedBy(t, names) && Distinct(names) && Bare(names)
    requires forall i :: 0 <= i < |t| ==> t[i].GnuEntry? || t[i].GnuFirmEntry? || t[i].LibcEntry?
    ensures PlainPrefixed(t) && DistinctNames(t) && DisjointNames(t, SyncTable) && DisjointNames(t, ChkTable)
  {
    PlainTableDistinct(t);
  }

  lemma PlainTablesByNames(a: seq<Entry>, na: seq<string>, b: seq<Entry>, nb: seq<string>)
    requires NamedBy(a, na) && NamedBy(b, nb) && PlainPrefixed(a) && PlainPrefixed(b) && Disjoint(na, nb)
    ensures DisjointNames(a, b)
  {
    PlainTablesDisjoint(a, b);
  }

  /** A plain-prefixed table with distinct names, none `may_alias`. */
  lemma PlainTableDistinct(t: seq<Entry>)
    requires PlainPrefixed(t)
    requires forall i, j :: 0 <= i < j < |t| ==> t[i].name != t[j].name
    requires forall i :: 0 <= i < |t| ==> t[i].name != "may_alias"
    ensures DistinctNames(t) && DisjointNames(t, SyncTable) && DisjointNames(t, ChkTable)
  {
    DistinctBySuffix(t);
    DisjointFromSync(t);
    DisjointFromChk(t);
  }

  /** Two plain-prefixed tables whose bare names are disjoint. */
  lemma PlainTablesDisjoint(a: seq<Entry>, b: seq<Entry>)
    requires PlainPrefixed(a) && PlainPrefixed(b)
    requires forall i, j :: 0 <= i < |a| && 0 <= j < |b| ==> a[i].name != b[j].name
    ensures DisjointNames(a, b)
  {
    DisjointBySuffix(a, b);
  }

  lemma SyncChkDisjoint()
    ensures DisjointNames(SyncTable, ChkTable)
  {
    ChkSuffixes();
    forall j | 0 <= j < |ChkTable| ensures GnuShaped(ChkTable[j]) && GnuSuffix(ChkTable[j]) != "may_alias" {
      assert GnuSuffix(ChkTable[j])[0] == '_';
    }
    DisjointFromSync(ChkTable);
    DisjointSymmetric(ChkTable, SyncTable);
  }

  /** Five tables with pairwise disjoint, internally distinct names concatenate to
      a table with distinct names. */
  lemma DistinctFive(k: seq<Entry>, f: seq<Entry>, s: seq<Entry>, l: seq<Entry>, c: seq<Entry>)
    requires DistinctNames(k) && DistinctNames(f) && DistinctNames(s) && DistinctNames(l) && DistinctNames(c)
    requires DisjointNames(k, f) && DisjointNames(k, s) && DisjointNames(k, l) && DisjointNames(k, c)
    requires DisjointNames(f, s) && DisjointNames(f, l) && DisjointNames(f, c)
    requires DisjointNames(s, l) && DisjointNames(s, c) && DisjointNames(l, c)
    ensures DistinctNames(k + f + s + l + c)
  {
    DistinctNamesConcat(k, f);
    DisjointNamesConcat(k, f, s);
    DistinctNamesConcat(k + f, s);
    DisjointNamesConcat(k, f, l);
    DisjointNamesConcat(k + f, s, l);
    DistinctNamesConcat(k + f + s, l);
    DisjointNamesConcat(k, f, c);
    DisjointNamesConcat(k + f, s, c);
    DisjointNamesConcat(k + f + s, l, c);
    DistinctNamesConcat(k + f + s + l, c);
  }

  /** The three plain-prefixed tables of `create_gnu_builtins`. */
  lemma GnuPlainTables()
    ensures PlainPrefixed(GnuBuiltinTable) && PlainPrefixed(GnuFirmTable) && PlainPrefixed(LibcTable)
    ensures DistinctNames(GnuBuiltinTable) && DistinctNames(GnuFirmTable) && DistinctNames(LibcTable)
    ensures DisjointNames(GnuBuiltinTable, SyncTable) && DisjointNames(GnuFirmTable, SyncTable)
    ensures DisjointNames(LibcTable, SyncTable)
    ensures DisjointNames(GnuBuiltinTable, ChkTable) && DisjointNames(GnuFirmTable, ChkTable)
    ensures DisjointNames(LibcTable, ChkTable)
    ensures DisjointNames(GnuBuiltinTable, GnuFirmTable) && DisjointNames(GnuBuiltinTable, LibcTable)
    ensures DisjointNames(GnuFirmTable, LibcTable)
  {
    GnuBuiltinTableNamed();
    GnuFirmTableNamed();
    LibcTableNamed();
    GnuBuiltinNamesBare();
    GnuFirmNamesBare();
    GnuFirmNamesDistinct();
    LibcNamesBare();
    LibcNamesDistinct();
    PlainTableByNames(GnuBuiltinTable, GnuBuiltinNames);
    PlainTableByNames(GnuFirmTable, GnuFirmNames);
    PlainTableByNames(LibcTable, LibcNames);
    GnuFirmNamesDisjoint();
    GnuLibcNamesDisjoint();
    FirmLibcNamesDisjoint();
    PlainTablesByNames(GnuBuiltinTable, GnuBuiltinNames, GnuFirmTable, GnuFirmNames);
    PlainTablesByNames(GnuBuiltinTable, GnuBuiltinNames, LibcTable, LibcNames);
    PlainTablesByNames(GnuFirmTable, GnuFirmNames, LibcTable, LibcNames);
  }

  /** Every builtin name of `create_gnu_builtins` is unique, so each entry is
      recorded under a symbol of its own. */
  lemma GnuBuiltinsDistinct()
    ensures DistinctNames(GnuBuiltins)
  {
    GnuPlainTables();
    DisjointSymmetric(LibcTable, SyncTable);
    SyncNames();
    SyncChkDisjoint();
    ChkDistinct();
    DistinctFive(GnuBuiltinTable, GnuFirmTable, SyncTable, LibcTable, ChkTable);
  }

  /** Every intrinsic name of `create_microsoft_intrinsics` is unique. */
  lemma MicrosoftIntrinsicsDistinct()
    ensures DistinctNames(MicrosoftIntrinsics)
  {
    RotateTableNamed();
    MicrosoftFirmTableNamed();
    MicrosoftNamesDistinct();
    var t, n := MicrosoftIntrinsics, RotateNames + MicrosoftFirmNames;
    forall i, j | 0 <= i < j < |t| ensures SymbolText(t[i]) != SymbolText(t[j]) {
      assert t[i].name == n[i] && t[j].name == n[j];
    }
  }

  /** The libc wrapper and the checked wrapper of the same libc function are
      recorded under different symbols. */
  lemma LibcAndChkNamesDiffer(n: string, pos: nat, s1: Ty, s2: Ty)
    ensures SymbolText(LibcEntry(n, s1)) != SymbolText(ChkEntry(n, pos, s2))
    ensures SymbolText(LibcEntry(n, s1)) == "__builtin_" + n
    ensures SymbolText(ChkEntry(n, pos, s2)) == "__builtin___" + n + "_chk"
  {
  }

  /** The complex-number merges name six different functions. */
  lemma ComplexMergesDistinct()
    ensures forall i, j :: 0 <= i < j < |ComplexMerges| ==> ComplexMerges[i].name != ComplexMerges[j].name
  {
  }

  // The two catalogs never share a symbol: every spelling of `create_gnu_builtins`
  // has `b` (of `__builtin_`) or `s` (of `__sync_`) as third character, and no
  // spelling of `create_microsoft_intrinsics` has either.

  /** Every spelling of `t` has `b` or `s` as third character. */
  predicate GnuInitials(t: seq<Entry>)
  {
    forall i :: 0 <= i < |t| ==> |SymbolText(t[i])| > 2 && SymbolText(t[i])[2] in "bs"
  }

  /** No spelling of `t` has `b` or `s` as third character. */
  predicate MicrosoftInitials(t: seq<Entry>)
  {
    forall i :: 0 <= i < |t| ==> |SymbolText(t[i])| > 2 && SymbolText(t[i])[2] !in "bs"
  }

  lemma DisjointByInitials(a: seq<Entry>, b: seq<Entry>)
    requires GnuInitials(a) && MicrosoftInitials(b)
    ensures DisjointNames(a, b)
  {
    forall i, j | 0 <= i < |a| && 0 <= j < |b| ensures SymbolText(a[i]) != SymbolText(b[j]) {
      assert SymbolText(a[i])[2] != SymbolText(b[j])[2];
    }
  }

  lemma GnuShapedInitials(t: seq<Entry>)
    requires forall i :: 0 <= i < |t| ==> GnuShaped(t[i])
    ensures GnuInitials(t)
  {
    forall i | 0 <= i < |t| ensures |SymbolText(t[i])| > 2 && SymbolText(t[i])[2] in "bs" {
      GnuSymbolText(t[i]);
      assert ("__builtin_" + GnuSuffix(t[i]))[2] == 'b';
    }
  }

  lemma MicrosoftNamesInitials()
    ensures var n := RotateNames + MicrosoftFirmNames;
      forall i :: 0 <= i < |n| ==> |n[i]| > 2 && n[i][2] !in "bs"
  {
  }

  /** No Microsoft intrinsic is spelled like a gnu builtin, so registering one
      catalog never rebinds a symbol of the other. */
  lemma GnuMicrosoftDisjoint()
    ensures DisjointNames(GnuBuiltins, MicrosoftIntrinsics)
  {
    RotateTableNamed();
    MicrosoftFirmTableNamed();
    MicrosoftNamesInitials();
    var m, n := MicrosoftIntrinsics, RotateNames + MicrosoftFirmNames;
    forall i | 0 <= i < |m| ensures |SymbolText(m[i])| > 2 && SymbolText(m[i])[2] !in "bs" {
      assert m[i].name == n[i];
    }
    GnuPlainTables();
    ChkSuffixes();
    SyncNames();
    GnuShapedInitials(GnuBuiltinTable);
    GnuShapedInitials(GnuFirmTable);
    GnuShapedInitials(LibcTable);
    GnuShapedInitials(ChkTable);
    assert ("__builtin_" + "may_alias")[2] == 'b';
    DisjointByInitials(GnuBuiltinTable, m);
    DisjointByInitials(GnuFirmTable, m);
    DisjointByInitials(SyncTable, m);
    DisjointByInitials(LibcTable, m);
    DisjointByInitials(ChkTable, m);
    DisjointNamesConcat(GnuBuiltinTable, GnuFirmTable, m);
    DisjointNamesConcat(GnuBuiltinTable + GnuFirmTable, SyncTable, m);
    DisjointNamesConcat(GnuBuiltinTable + GnuFirmTable + SyncTable, LibcTable, m);
    DisjointNamesConcat(GnuBuiltinTable + GnuFirmTable + SyncTable + LibcTable, ChkTable, m);
  }

  // The tags each creation function gives a line, and the shape of the merges.

  /** The tags of line `e` agree as its creation function sets them: the
      signature is a function type; `BUILTIN_FIRM` comes exactly with a backend
      kind and `BUILTIN_LIBC_CHECK` exactly with a size-argument position; the
      library flag is set exactly for the two libc kinds, and exactly then there
      is an actual name, which differs from the builtin's own spelling; the
      size-argument position is that of the last parameter, a `size_t`. */
  predicate WellTagged(e: Entry)
  {
    && e.sig.FunctionTy?
    && (Kind(e) == BuiltinFirm <==> Extra(e).FirmKind?)
    && (Kind(e) == BuiltinLibcCheck <==> Extra(e).ChkArgPos?)
    && (InLib(e) <==> Kind(e) == BuiltinLibc || Kind(e) == BuiltinLibcCheck)
    && (ActualName(e).Some? <==> InLib(e))
    && (InLib(e) ==> ActualName(e).value != SymbolText(e))
    && (e.ChkEntry? ==> e.chkArgPos + 1 == |e.sig.params| && e.sig.params[e.chkArgPos] == TSize)
  }

  predicate AllWellTagged(t: seq<Entry>)
  {
    forall i :: 0 <= i < |t| ==> WellTagged(t[i])
  }

  lemma AllWellTaggedConcat(a: seq<Entry>, b: seq<Entry>)
    requires AllWellTagged(a) && AllWellTagged(b)
    ensures AllWellTagged(a + b)
  {
    forall i | 0 <= i < |a + b| ensures WellTagged((a + b)[i]) {
      if i < |a| { assert (a + b)[i] == a[i]; } else { assert (a + b)[i] == b[i - |a|]; }
    }
  }

  /** A wrapper's actual name is never its own `__builtin_` spelling. */
  lemma WrapperNamesDiffer(n: string)
    ensures "__builtin_" + n != n && "__builtin___" + n + "_chk" != n
  {
    assert |"__builtin_" + n| == |n| + 10;
  }

  lemma GnuBuiltinTableWellTagged()
    ensures AllWellTagged(GnuBuiltinTable)
  {
    GnuBuiltinTableNamed();
  }

  lemma GnuFirmTableWellTagged()
    ensures AllWellTagged(GnuFirmTable) && AllWellTagged(SyncTable)
  {
    GnuFirmTableNamed();
  }

  lemma WrapperTablesWellTagged()
    ensures AllWellTagged(LibcTable) && AllWellTagged(ChkTable)
  {
    LibcTableNamed();
    ChkTableNamed();
    forall i | 0 <= i < |LibcTable| ensures WellTagged(LibcTable[i]) {
      WrapperNamesDiffer(LibcTable[i].name);
    }
    forall i | 0 <= i < |ChkTable| ensures WellTagged(ChkTable[i]) {
      WrapperNamesDiffer(ChkTable[i].name);
    }
  }

  lemma MicrosoftTablesWellTagged()
    ensures AllWellTagged(RotateTable) && AllWellTagged(MicrosoftFirmTable)
  {
    RotateTableNamed();
    MicrosoftFirmTableNamed();
  }

  /** Every line of both catalogs is tagged as its creation function tags it. */
  lemma CatalogWellTagged()
    ensures AllWellTagged(GnuBuiltins) && AllWellTagged(MicrosoftIntrinsics)
  {
    GnuBuiltinTableWellTagged();
    GnuFirmTableWellTagged();
    WrapperTablesWellTagged();
    AllWellTaggedConcat(GnuBuiltinTable, GnuFirmTable);
    AllWellTaggedConcat(GnuBuiltinTable + GnuFirmTable, SyncTable);
    AllWellTaggedConcat(GnuBuiltinTable + GnuFirmTable + SyncTable, LibcTable);
    AllWellTaggedConcat(GnuBuiltinTable + GnuFirmTable + SyncTable + LibcTable, ChkTable);
    MicrosoftTablesWellTagged();
    AllWellTaggedConcat(RotateTable, MicrosoftFirmTable);
  }

  /** The element type a complex accessor's suffix selects: none for `double`,
      `f` for `float`, `l` for `long double`. */
  function ComplexElem(suffix: string): Atomic
  {
    if suffix == "f" then Float else if suffix == "l" then LongDouble else Double
  }

  /** Each merge's name says what it merges: `cimag` the imaginary and `creal`
      the real part, of the complex type its suffix selects; the standard's type
      takes that complex type, returns its element type, and is `const`. */
  lemma ComplexMergesShape()
    ensures forall i :: 0 <= i < |ComplexMerges| ==>
      var me := ComplexMerges[i];
      && |me.name| >= 5 && (me.name[..5] == "cimag" || me.name[..5] == "creal")
      && me.kind == (if me.name[..5] == "cimag" then BuiltinCimag else BuiltinCreal)
      && me.sig == Fn(Plain(ComplexElem(me.name[5..])), [ComplexTy(ComplexElem(me.name[5..]))], {Const})
  {
    assert "cimag"[..5] == "cimag" && "cimag"[5..] == "";
    assert "cimagf"[..5] == "cimag" && "cimagf"[5..] == "f";
    assert "cimagl"[..5] == "cimag" && "cimagl"[5..] == "l";
    assert "creal"[..5] == "creal" && "creal"[5..] == "";
    assert "crealf"[..5] == "creal" && "crealf"[5..] == "f";
    assert "creall"[..5] == "creal" && "creall"[5..] == "l";
  }

}
