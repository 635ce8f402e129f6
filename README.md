# cparser builtins, modelled in Dafny

This project models the builtin subsystem of the cparser C front end
(`src/parser/builtins.c`). It covers five pieces:

- the symbol interner used to finalise builtin names;
- the hash-consed type store with copy-on-write addition of declaration modifiers (`add_type_modifier`);
- the table-driven catalog of builtin entities (`create_gnu_builtins`, `create_microsoft_intrinsics`);
- the merger that attaches builtin semantics to user declarations of libc names (`find_known_libc_functions`, `merge_builtin`);
- the spelling heuristic that gives returns-twice and no-return attributes to the setjmp/longjmp family (`adapt_special_functions`).

Layout:

- `wrappers.dfy`: the `Option` type, standing for a possibly-NULL pointer.
- `types.dfy` (module `Types`): type descriptors as values. It holds the modifier set (`DM_*` as a set of flags: `(a & m) == m` is `m <= a`, `a | m` is `a + m`) and `AddModifiers`, the value that `add_type_modifier` returns.
- `entities.dfy` (module `Entities`): entity records, builtin kinds, the opaque backend kinds, warnings and dialect flags.
- `names.dfy` (module `Names`): name normalisation and classification, as pure functions with lemmas.
- `catalog.dfy` (module `Catalog`): the catalog as data tables. Each line records its creation shape, name and signature. Lemmas prove that every builtin name is unique.
- `session.dfy` (module `Builtins`): a `Session` class. It holds the symbol table, the type store, the entity heap, the global scope and the emitted warnings as fields. Its methods update these fields in place, as the C code updates its globals. A symbol, type or entity is its index in its store, so comparing indices is the C code's pointer comparison. The invariant `WellFormed` says that each interned text and each canonical type is stored once, and that every reference resolves.

Parameters that stand for code outside this file:

- `skip_typeref` and `types_compatible` are declared in `type.h` without a body shown. They appear as the function parameters `skip` and `compatible`. Lemmas that need it assume only that `skip` returns a function type unchanged.
- `dialect` is the `Dialect` parameter of `FindKnownLibcFunctions`.
- `warningf` appends a `Warning` value to `Session.warnings`.

`find_known_libc_functions` merges only the six complex accessors (`cimag`, `cimagf`, `cimagl`, `creal`, `crealf`, `creall`), and only when `c99` is set and `freestanding` is not (src/parser/builtins.c:216-243). The C code spells out the six lookups one after another. The model runs the same six lines, in the same order, as `MergeLine` steps over the table `Catalog.ComplexMerges`: `MergeLines` runs line `i` and then recurses on the lines after it. `memcpy` appears only as the catalog wrappers `__builtin_memcpy` and `__builtin___memcpy_chk`.

## Model

| member | source | states |
|---|---|---|
| `Names.NormalizeName` | src/parser/builtins.c:313-323 | The base name is a suffix of the name, and exactly 0, 1, 2, 3 or 10 characters are dropped. Characters are dropped exactly when the name starts with `_`. Every read past the end of the name is guarded by an explicit length check. |
| `Names.NormalizeUnprefixed` | src/parser/builtins.c:314 | A name that does not start with `_` is unchanged. |
| `Names.NormalizeBuiltinPrefix` | src/parser/builtins.c:315-316 | `__builtin_` followed by any text drops exactly 10 characters. |
| `Names.NormalizeXPrefix` | src/parser/builtins.c:317-318 | `__x` followed by any text drops exactly 3 characters. |
| `Names.NormalizeDoubleUnderscore` | src/parser/builtins.c:319-320 | `__` followed by text that starts with neither `x` nor `builtin_` drops exactly 2 characters. |
| `Names.NormalizeSingleUnderscore` | src/parser/builtins.c:321-322 | `_` followed by text that does not start with `_` drops exactly 1 character. |
| `Names.NormalizeStripsOnce` | src/parser/builtins.c:314-323 | Only one convention is stripped: `__builtin__setjmp` becomes `_setjmp`, and `___x` becomes `_x`. |
| `Names.NormalizeShortNames` | src/parser/builtins.c:314-323 | `""`, `"_"` and `"__"` all normalise to `""`. The C code reaches the terminator in these cases. |
| `Names.NormalizeBarePrefixes` | src/parser/builtins.c:315-318 | `__x` and `__builtin_` with nothing after them normalise to `""`. |
| `Names.SpecialModifier` | src/parser/builtins.c:325-344 | The first-character dispatch only ever yields returns-twice or no-return. |
| `Names.SpecialModifierMatchesLists` | src/parser/builtins.c:325-344 | The dispatch gives returns-twice exactly for `setjmp`, `setjmp_syscall`, `sigsetjmp`, `savectx`, `qsetjmp`, `vfork` and `getcontext`. It gives no-return exactly for `siglongjmp` and `longjmp`. Every other base name gets nothing. Each fact holds in both directions. |
| `Names.SpecialAttribute` | src/parser/builtins.c:313-344 | The modifier of a name is returns-twice exactly when its normalised name is on the returns-twice list. It is no-return exactly when the normalised name is on the no-return list, and none exactly when the normalised name is on neither. |
| `Names.SpecialAttributeIgnoresConvention` | src/parser/builtins.c:313-344 | For every base name, the `__builtin_`, `__x`, `__` and `_` spellings classify like the base name itself, within the cases where that spelling strips exactly its own prefix. |
| `Names.SpecialAttributeSetjmpExamples` | src/parser/builtins.c:325-331 | `setjmp`, `_setjmp` and `__builtin_setjmp` all get returns-twice. |
| `Names.SpecialAttributeReturnsTwiceExamples` | src/parser/builtins.c:328-340 | `sigsetjmp` and `__xvfork` get returns-twice. |
| `Names.SpecialAttributeNoReturnExamples` | src/parser/builtins.c:341-343 | `longjmp` and `__longjmp` get no-return. |
| `Names.SpecialAttributeOtherExamples` | src/parser/builtins.c:325-344 | `memcpy`, `_` and `__` get nothing. |
| `Types.AddModifiers` | src/parser/builtins.c:291-302 | The result is either the original type or a function type. |
| `Types.AddModifiersContents` | src/parser/builtins.c:296-300 | After stripping the alias, the result's modifiers are exactly the old set united with the requested set. Its return type, parameters and variadic flag are the old ones. |
| `Types.AddModifiersSameExactlyWhenPresent` | src/parser/builtins.c:296-297 | The original type comes back exactly when every requested modifier is already present. Otherwise the result is a different type. |
| `Types.AddModifiersIdempotent` | src/parser/builtins.c:291-302 | Adding the same modifiers twice gives the same type as adding them once. |
| `Types.AddModifiersCommute` | src/parser/builtins.c:291-302 | Adding `a` then `b` gives the same type as adding `b` then `a`. Both equal the original function type with `a` and `b` added to its modifiers. |
| `Catalog.GnuBuiltinsDistinct` | src/parser/builtins.c:98-182 | Each of the 67 entries of `create_gnu_builtins` is recorded under its own symbol text. |
| `Catalog.MicrosoftIntrinsicsDistinct` | src/parser/builtins.c:263-289 | Each of the 17 Microsoft intrinsics is recorded under its own symbol text. |
| `Catalog.LibcAndChkNamesDiffer` | src/parser/builtins.c:76-96 | For every `n`, the libc wrapper is named `__builtin_<n>` and the checked wrapper `__builtin___<n>_chk`. The two names differ. |
| `Catalog.WrapperNamesDiffer` | src/parser/builtins.c:76-96 | A wrapper's actual name `n` differs from both its spellings, `__builtin_<n>` and `__builtin___<n>_chk`. |
| `Catalog.GnuSymbolText` | src/parser/builtins.c:48-96 | Every line created through `obstack_printf` is spelled `__builtin_` followed by its suffix. For a checked wrapper the suffix is `__<n>_chk`. |
| `Catalog.GnuMicrosoftDisjoint` | src/parser/builtins.c:263-289 | No Microsoft intrinsic is spelled like any gnu builtin. Every gnu spelling has `b` or `s` as its third character, and no Microsoft spelling does. |
| `Catalog.GnuBuiltinTableWellTagged` | src/parser/builtins.c:100-113 | Every `create_gnu_builtin` line has a function signature. It carries no backend kind, no size position and no library flag. |
| `Catalog.GnuFirmTableWellTagged` | src/parser/builtins.c:115-143 | Every `create_gnu_builtin_firm` and `create_builtin_firm` line is tagged `BUILTIN_FIRM` with a backend kind. It has a function signature and no library flag. |
| `Catalog.WrapperTablesWellTagged` | src/parser/builtins.c:145-178 | Every libc wrapper is tagged `BUILTIN_LIBC` and every checked wrapper `BUILTIN_LIBC_CHECK`. Both live in the library, and their actual name differs from their own spelling. A checked wrapper's size position is that of its last parameter, a `size_t`. |
| `Catalog.MicrosoftTablesWellTagged` | src/parser/builtins.c:263-289 | Every intrinsic has a function signature. It carries a backend kind exactly when it is tagged `BUILTIN_FIRM`, and never a library flag. |
| `Catalog.CatalogWellTagged` | src/parser/builtins.c:98-182 | Every line of both catalogs is tagged as its creation function tags it. The kind, the backend kind or size position, the library flag and the actual name agree, as the per-table lemmas state. |
| `Catalog.ComplexMergesDistinct` | src/parser/builtins.c:230-242 | The six complex-accessor merges name six different functions. |
| `Catalog.ComplexMergesShape` | src/parser/builtins.c:230-242 | Each merge line is named `cimag` or `creal` plus a suffix. The name fixes the kind, and the standard type is `const`. That type takes the complex type the suffix selects (`double`, `f` for `float`, `l` for `long double`) and returns its element type. |
| `Builtins.StoresCanonical` | src/parser/builtins.c:39-46 | In a well-formed session, equal texts mean the same symbol, and equal type structures mean the same canonical instance. |
| `Builtins.InternKeepsWellFormed` | src/parser/builtins.c:42 | Interning a text not seen before keeps the session invariant. |
| `Builtins.MergedOutcome` | src/parser/builtins.c:190-212 | The exact effect of a merge has three outcomes. A non-function gets a warning and stays unchanged. An incompatible function gets a warning and stays unchanged. A compatible one gets a merge link to a builtin record. No other existing entity changes. |
| `Builtins.RecordedLookup` | src/parser/builtins.c:31-37 | After registration, looking up any symbol with a builtin's text leads to that builtin, which is an implicit function. |
| `Builtins.InternedStep` | src/parser/builtins.c:98-182 | Registering one more line interns, in order, the texts and signatures of all lines up to it. |
| `Builtins.RegisteredBelowStep` | src/parser/builtins.c:98-182 | Registering the next line keeps the registration invariant. The texts and signatures registered so far are interned in order, each line has its own new entity recorded under its text, and earlier scope bindings are kept unless a line rebinds them. |
| `Builtins.RecordsKeptAfter` | src/parser/builtins.c:98-182 | After a table is registered, every entity recorded earlier under a text that no line of the table uses is still recorded. |
| `Builtins.GnuRecordsSurviveMicrosoft` | src/parser/builtins.c:263-289 | Registering the Microsoft intrinsics after the gnu builtins leaves every gnu builtin recorded under its spelling. |
| `Builtins.DeclarationStable` | src/parser/builtins.c:184-188 | Interning more texts never changes what a name is declared as. |
| `Builtins.DeclarationFresh` | src/parser/builtins.c:230-242 | Each merge line finds a declaration that no earlier line found. |
| `Builtins.LineWarningsRebased` | src/parser/builtins.c:230-242 | A merge line finds the same declaration, emits the same warnings and adds the same number of builtin records, whether judged on the session it starts from or on the session before the first line. |
| `Builtins.DeclaredLineMerged` | src/parser/builtins.c:230-242 | For a declared name, interning the name, then the standard's type, then merging gives the exact line outcome `LineMerged`. |
| `Builtins.UndeclaredLineMerged` | src/parser/builtins.c:230-242 | For a name that is not declared, only the symbol table changes: no type, entity or warning is added. |
| `Builtins.MergeWarningsStep` | src/parser/builtins.c:230-242 | Each merge line appends its own warnings after those of the earlier lines, in table order. |
| `Builtins.LinesGrownStep` | src/parser/builtins.c:222-242 | Each merge line keeps the exact growth: the names interned so far, the complex types followed by the types of declared lines, and one builtin record per compatible declaration. |
| `Builtins.MergeNamesStep` | src/parser/builtins.c:230-242 | Each merge line interns its name after the names of the earlier lines. |
| `Builtins.MergeTypesStep` | src/parser/builtins.c:230-242 | A merge line interns the standard's type exactly when its name is declared. |
| `Builtins.MergeBuiltinsStep` | src/parser/builtins.c:190-212 | A merge line adds a builtin record exactly when it finds a compatible function, counted after the records of the earlier lines. |
| `Builtins.MergedDeclarationsStep` | src/parser/builtins.c:230-242 | After each merge line, the only existing entities that have changed are the declarations found so far. |
| `Builtins.MergeLoopStep` | src/parser/builtins.c:230-242 | One merge line keeps the whole merge invariant: the per-name outcomes, the frame, and the exact warnings. |
| `Builtins.Session.LookupSymbol` | src/parser/builtins.c:42 | The search finds the symbol with the given text exactly when that text is interned. |
| `Builtins.Session.SymbolTableInsert` | src/parser/builtins.c:70 | The result has the given text. A known text leaves the table unchanged. A new text is appended exactly once. |
| `Builtins.Session.InternTwice` | src/parser/builtins.c:39-46 | Interning the same text twice gives the identical symbol, and the table grows at most once. |
| `Builtins.Session.FinalizeSymbolString` | src/parser/builtins.c:39-46 | The scratch copy is released exactly when its text was already interned. |
| `Builtins.Session.FindType` | src/parser/builtins.c:301 | The search finds a structurally equal canonical instance exactly when one exists. |
| `Builtins.Session.IdentifyNewType` | src/parser/builtins.c:301 | The result is the canonical instance of the structure. An existing instance is reused and the store is unchanged. Otherwise the structure is appended once. |
| `Builtins.Session.AddTypeModifier` | src/parser/builtins.c:291-302 | The result is the canonical instance of `AddModifiers`. When the modifiers are already present, the original instance comes back and nothing is added. The store only grows, so no existing type is changed. |
| `Builtins.Session.AdaptSpecialFunctions` | src/parser/builtins.c:304-345 | A function with no symbol, or with an unlisted name, is left untouched. A listed function is rebound to the canonical type with the modifier added, and nothing else changes. |
| `Builtins.Session.CreateBuiltinFunction` | src/parser/builtins.c:18-29 | It allocates a function entity that is extern (declared and actual), implicit, and tagged with the requested kind. |
| `Builtins.Session.RecordBuiltinFunction` | src/parser/builtins.c:31-37 | It allocates the builtin and binds its symbol to it in the scope. |
| `Builtins.Session.CreateGnuBuiltin` | src/parser/builtins.c:48-55 | The entity is recorded under `__builtin_<n>` with the given kind. |
| `Builtins.Session.CreateGnuBuiltinFirm` | src/parser/builtins.c:57-65 | The entity is recorded under `__builtin_<n>`, tagged `BUILTIN_FIRM`, with the backend kind. |
| `Builtins.Session.CreateBuiltinFirm` | src/parser/builtins.c:67-74 | The entity is recorded under `n` verbatim, tagged `BUILTIN_FIRM`, with the backend kind. `create_intrinsic_firm` (lines 246-253) is the same code. |
| `Builtins.Session.CreateGnuBuiltinLibc` | src/parser/builtins.c:76-84 | The entity is recorded under `__builtin_<n>`, tagged `BUILTIN_LIBC`, with `builtin_in_lib` set and actual name `n`. |
| `Builtins.Session.CreateGnuBuiltinChk` | src/parser/builtins.c:86-96 | The entity is recorded under `__builtin___<n>_chk`, tagged `BUILTIN_LIBC_CHECK`, with `builtin_in_lib` set, actual name `n` and the position of the size argument. |
| `Builtins.Session.CreateIntrinsic` | src/parser/builtins.c:255-261 | The entity is recorded under `n` verbatim with the given kind. |
| `Builtins.Session.CreateEntry` | src/parser/builtins.c:100-178 | It makes the creation call of a line's shape. The symbol table becomes exactly the old one with the line's spellings interned. One new entity is recorded with the line's text, kind, extra tag, library flag and actual name. |
| `Builtins.Session.RegisterEntry` | src/parser/builtins.c:100-178 | One catalog line is recorded under its spelling, with the tags of its shape and the canonical instance of its signature. The symbol table becomes exactly the old one with the line's spellings interned: one text, or two for a libc wrapper. The type store becomes exactly the old one with the signature interned. |
| `Builtins.Session.RegisterLine` | src/parser/builtins.c:98-182 | One more line of a table is registered, and the registration invariant holds for one more line. |
| `Builtins.Session.RegisterAll` | src/parser/builtins.c:98-182 | Every line of a table is recorded as one new entity, in order. The symbol table becomes exactly the old one with every line's spellings interned in order, and the type store exactly the old one with every signature interned in order. Earlier scope bindings survive unless a builtin symbol is rebound. Earlier records under other texts are still recorded. |
| `Builtins.Session.CreateGnuBuiltins` | src/parser/builtins.c:98-182 | The whole gnu catalog is recorded, one entity per entry. The symbol table and type store grow exactly by interning the catalog's spellings and signatures in order. |
| `Builtins.Session.CreateMicrosoftIntrinsics` | src/parser/builtins.c:263-289 | All Microsoft intrinsics are recorded, one entity per entry. The symbol table and type store grow exactly by interning their spellings and signatures in order. |
| `Builtins.Session.FindExistingEntity` | src/parser/builtins.c:184-188 | The name is interned. The result is the scope binding of its symbol, the same before and after interning. A name that was new has no declaration. |
| `Builtins.Session.MergeBuiltin` | src/parser/builtins.c:190-212 | The merge has three outcomes: a must-be-function warning, an incompatible-type warning, or a new in-library builtin record with the declaration's symbol and the standard's type, linked from the declaration. |
| `Builtins.Session.MergeKnownFunction` | src/parser/builtins.c:230-231 | The name is interned. An undeclared name leaves types, entities and warnings unchanged. A declared name gets exactly the standard's type interned, at most one new entity (one exactly when the declaration is a compatible function, `LineBuiltins`), and exactly the outcome of `merge_builtin`, with its warning. No other existing entity changes. |
| `Builtins.Session.MergeDeclared` | src/parser/builtins.c:231 | The standard's type is interned (`types == Interned(old(types), me.sig)`), and the declaration gets exactly the outcome of `merge_builtin` against it. |
| `Builtins.Session.MergeLine` | src/parser/builtins.c:230-242 | One merge line keeps the merge invariant for one more line: the names, types, builtin count and warnings of the lines so far are exact, and only their declarations change. |
| `Builtins.Session.MergeLines` | src/parser/builtins.c:230-242 | The merge lines from `i` onwards run in table order. Called with `i == 0`, it runs all six. Afterwards the symbols are exactly the six names interned in order. The types are exactly the standard's type of each declared line, interned in order. One builtin record is added per compatible declaration. The warnings are exact. |
| `Builtins.Session.InternComplexTypes` | src/parser/builtins.c:222-227 | The complex `float`, `double` and `long double` types are interned, in this order, and nothing else is added (`WithComplexTypes`). |
| `Builtins.Session.FindKnownLibcFunctions` | src/parser/builtins.c:214-244 | Under `freestanding`, or without `c99`, nothing changes. Otherwise each declared complex accessor gets its merge outcome, and no other existing entity changes. The symbols gain exactly the six names, in order (`LinesGrown`). The types gain exactly the three complex types, then the standard's type of each declared line, in order (`MergeTypes`). The entities gain exactly one builtin record per line whose declaration is a compatible function (`MergeBuiltins`). The warnings are exactly those of the six lines, in table order, judged on the session before the first line. |

## Left out

- Floating point: `huge_val`, `inf`, `nan`, `fabs*` and `atan2l` appear only as table entries with atomic type tags. Nothing computes with floats.
- Diagnostic text and source positions (`warningf` arguments, `builtin_position`): a warning is the value `MustBeFunction` or `IncompatibleDeclaration`.
- Obstack memory management (`obstack_printf`, `obstack_nul_finish`, `obstack_free`): only the release of a duplicate scratch string is modelled, as the flag `released`.
- The bodies of `skip_typeref` and `types_compatible` (`type.h`): they are parameters.
- The bodies of the following C helpers are not part of this model. Each appears as follows:
  - `make_*_type`: a `Ty` descriptor value (`Types.FunctionTy` and the others), interned by `IdentifyNewType`.
  - `make_complex_type`: a `Types.ComplexTy` descriptor, interned by `InternComplexTypes`.
  - `duplicate_type`: the modified copy that `Types.AddModifiers` returns, interned by `AddTypeModifier`.
  - `record_entity`: a scope insertion, in `RecordBuiltinFunction`.
  - `get_entity`: a scope lookup, in `FindExistingEntity`.
  - `merge_into_decl`: setting the declaration's `mergedBuiltin` link, in `MergeBuiltin`.
- The meaning of `ir_builtin_kind` values: they are opaque tags.
- Namespaces other than the normal one. The scope models `NAMESPACE_NORMAL` only.
- `AddTypeModifier`: the C `assert` that the type is a function type is a precondition, not an abort path, because the C code treats a violation as a defect.
- Bit widths of `decl_modifiers_t` and of `chk_arg_pos`: modifiers are a set of flags, and the position is a `nat`.
