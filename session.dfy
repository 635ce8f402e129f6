/**
  The session state the builtin subsystem works on and its operations. The C code
  keeps this state in globals: the symbol table (an interner), the hash-consed
  type store, the entities and the global scope. Here they are fields of one
  `Session` object whose methods update them in place. A symbol, type or entity
  is its index in the matching store, so an index comparison is the pointer
  comparison of the C code.
 */
module Builtins {
  import opened Wrappers
  import opened Interning
  import opened Types
  import opened Names
  import opened Entities
  import opened Catalog

  /** The references an entity holds point into the stores. */
  ghost predicate EntityWellFormed(e: Entity, nSymbols: nat, nTypes: nat, nEntities: nat)
  {
    && (e.symbol.Some? ==> e.symbol.value < nSymbols)
    && e.typ < nTypes
    && (e.actualName.Some? ==> e.actualName.value < nSymbols)
    && (e.mergedBuiltin.Some? ==> e.mergedBuiltin.value < nEntities)
  }

  /** The session invariant, on values: interned texts and canonical types occur
      once each (so equal text means same symbol, equal structure means same
      type), and every reference resolves. The scope maps a symbol to an entity
      declared under that symbol. */
  ghost predicate WellFormed(symbols: seq<string>, types: seq<Ty>, entities: seq<Entity>, scope: map<Symbol, EntityRef>)
  {
    && (forall i, j :: 0 <= i < j < |symbols| ==> symbols[i] != symbols[j])
    && (forall i, j :: 0 <= i < j < |types| ==> types[i] != types[j])
    && (forall k :: k in scope ==> k < |symbols| && scope[k] < |entities| && entities[scope[k]].symbol == Some(k))
    && (forall i :: 0 <= i < |entities| ==> EntityWellFormed(entities[i], |symbols|, |types|, |entities|))
  }

  /** In a well-formed session equality of interned texts is identity of symbols,
      and structural equality of stored types is identity of canonical instances. */
  lemma StoresCanonical(symbols: seq<string>, types: seq<Ty>, entities: seq<Entity>, scope: map<Symbol, EntityRef>,
                        i: nat, j: nat)
    requires WellFormed(symbols, types, entities, scope)
    ensures i < |symbols| && j < |symbols| ==> (symbols[i] == symbols[j] <==> i == j)
    ensures i < |types| && j < |types| ==> (types[i] == types[j] <==> i == j)
  {
    if i < |symbols| && j < |symbols| && i != j {
      if i < j { assert symbols[i] != symbols[j]; } else { assert symbols[j] != symbols[i]; }
    }
    if i < |types| && j < |types| && i != j {
      if i < j { assert types[i] != types[j]; } else { assert types[j] != types[i]; }
    }
  }

  // How each kind of store update keeps the invariant.

  /** Interning a new text keeps the session well formed. */
  lemma InternKeepsWellFormed(symbols: seq<string>, types: seq<Ty>, entities: seq<Entity>, scope: map<Symbol, EntityRef>,
                              text: string)
    requires WellFormed(symbols, types, entities, scope) && text !in symbols
    ensures WellFormed(symbols + [text], types, entities, scope)
  {
    var s := symbols + [text];
    forall i, j | 0 <= i < j < |s| ensures s[i] != s[j] {
      if j < |symbols| {
        assert s[i] == symbols[i] && s[j] == symbols[j];
      } else {
        assert s[i] == symbols[i] && s[j] == text;
      }
    }
  }

  /** Adding a new canonical type keeps the session well formed. */
  lemma AddTypeKeepsWellFormed(symbols: seq<string>, types: seq<Ty>, entities: seq<Entity>, scope: map<Symbol, EntityRef>,
                               t: Ty)
    requires WellFormed(symbols, types, entities, scope) && t !in types
    ensures WellFormed(symbols, types + [t], entities, scope)
  {
    var s := types + [t];
    forall i, j | 0 <= i < j < |s| ensures s[i] != s[j] {
      if j < |types| {
        assert s[i] == types[i] && s[j] == types[j];
      } else {
        assert s[i] == types[i] && s[j] == t;
      }
    }
  }

  /** Allocating an entity whose references resolve keeps the session well formed. */
  lemma AllocateKeepsWellFormed(symbols: seq<string>, types: seq<Ty>, entities: seq<Entity>, scope: map<Symbol, EntityRef>,
                                e: Entity)
    requires WellFormed(symbols, types, entities, scope)
    requires EntityWellFormed(e, |symbols|, |types|, |entities| + 1)
    ensures WellFormed(symbols, types, entities + [e], scope)
  {
    var s := entities + [e];
    forall k | k in scope ensures s[scope[k]].symbol == Some(k) {
      assert s[scope[k]] == entities[scope[k]];
    }
    forall i | 0 <= i < |s| ensures EntityWellFormed(s[i], |symbols|, |types|, |s|) {
      if i < |entities| {
        assert s[i] == entities[i];
      }
    }
  }

  /** Changing an entity, keeping its symbol and resolving references, keeps the
      session well formed. */
  lemma UpdateKeepsWellFormed(symbols: seq<string>, types: seq<Ty>, entities: seq<Entity>, scope: map<Symbol, EntityRef>,
                              x: EntityRef, e: Entity)
    requires WellFormed(symbols, types, entities, scope) && x < |entities|
    requires e.symbol == entities[x].symbol && EntityWellFormed(e, |symbols|, |types|, |entities|)
    ensures WellFormed(symbols, types, entities[x := e], scope)
  {
  }

  /** Binding a symbol to an entity declared under it keeps the session well formed. */
  lemma BindKeepsWellFormed(symbols: seq<string>, types: seq<Ty>, entities: seq<Entity>, scope: map<Symbol, EntityRef>,
                            k: Symbol, e: EntityRef)
    requires WellFormed(symbols, types, entities, scope)
    requires k < |symbols| && e < |entities| && entities[e].symbol == Some(k)
    ensures WellFormed(symbols, types, entities, scope[k := e])
  {
  }

  /** Entity `e` is a builtin recorded under the symbol with text `text`, with the
      tags given, type `t` and, if `actual` names one, an actual-name symbol with
      that text. */
  ghost predicate Registered(symbols: seq<string>, entities: seq<Entity>, scope: map<Symbol, EntityRef>,
                             e: EntityRef, text: string, kind: BuiltinKind, extra: BuiltinExtra,
                             inLib: bool, actual: Option<string>, t: TypeRef)
  {
    && e < |entities|
    && entities[e].symbol.Some?
    && var k := entities[e].symbol.value;
    && k < |symbols| && symbols[k] == text
    && k in scope && scope[k] == e
    && entities[e] == Entity(FunctionEntity, Some(k), StorageExtern, StorageExtern, t, true,
                             kind, extra, inLib, entities[e].actualName, None)
    && match actual
       case None => entities[e].actualName.None?
       case Some(n) => entities[e].actualName.Some? && entities[e].actualName.value < |symbols|
                       && symbols[entities[e].actualName.value] == n
  }

  /** Catalog entry `entry` is recorded as entity `e` under a symbol with text
      `text`, with the canonical instance of its signature as type. */
  ghost predicate RecordedAs(symbols: seq<string>, types: seq<Ty>, entities: seq<Entity>, scope: map<Symbol, EntityRef>,
                             text: string, entry: Entry, e: EntityRef)
  {
    && e < |entities|
    && Registered(symbols, entities, scope, e, text, Kind(entry), Extra(entry), InLib(entry),
                  ActualName(entry), entities[e].typ)
    && entities[e].typ < |types| && types[entities[e].typ] == entry.sig
  }

  /** Catalog entry `entry` is recorded as entity `e`, under its own spelling. */
  ghost predicate RecordedAt(symbols: seq<string>, types: seq<Ty>, entities: seq<Entity>, scope: map<Symbol, EntityRef>,
                             entry: Entry, e: EntityRef)
  {
    RecordedAs(symbols, types, entities, scope, SymbolText(entry), entry, e)
  }

  /** The spellings of a table's entries, in table order. */
  function Texts(table: seq<Entry>): (r: seq<string>)
    ensures |r| == |table| && forall j :: 0 <= j < |table| ==> r[j] == SymbolText(table[j])
  {
    if table == [] then [] else [SymbolText(table[0])] + Texts(table[1..])
  }

  /** The texts registering `e` interns, in order: its spelling, then the actual
      name of a libc wrapper. */
  function Spellings(e: Entry): (r: seq<string>)
    ensures |r| == (if InLib(e) then 2 else 1) && r[0] == SymbolText(e)
    ensures InLib(e) ==> r[1] == e.name
  {
    match ActualName(e)
    case None => [SymbolText(e)]
    case Some(n) => [SymbolText(e), n]
  }

  /** The texts the lines of `table` intern, line after line. */
  function TableSpellings(table: seq<Entry>): seq<string>
  {
    if table == [] then [] else TableSpellings(table[..|table| - 1]) + Spellings(table[|table| - 1])
  }

  /** The signatures of the lines of `table`, in order. */
  function Sigs(table: seq<Entry>): (r: seq<Ty>)
    ensures |r| == |table| && forall j :: 0 <= j < |table| ==> r[j] == table[j].sig
  {
    if table == [] then [] else Sigs(table[..|table| - 1]) + [table[|table| - 1].sig]
  }

  /** Registering line `i` of `table` after its first `i` lines interns the
      texts and signatures of the first `i + 1` lines. */
  lemma InternedStep(table: seq<Entry>, i: nat, symbolsS: seq<string>, typesS: seq<Ty>,
                     symbols0: seq<string>, types0: seq<Ty>, symbols: seq<string>, types: seq<Ty>)
    requires i < |table|
    requires symbols0 == InternAll(symbolsS, TableSpellings(table[..i])) && types0 == InternAll(typesS, Sigs(table[..i]))
    requires symbols == InternAll(symbols0, Spellings(table[i])) && types == Interned(types0, table[i].sig)
    ensures symbols == InternAll(symbolsS, TableSpellings(table[..i + 1]))
    ensures types == InternAll(typesS, Sigs(table[..i + 1]))
  {
    assert table[..i + 1][..i] == table[..i];
    InternAllConcat(symbolsS, TableSpellings(table[..i]), Spellings(table[i]));
    InternAllConcat(typesS, Sigs(table[..i]), [table[i].sig]);
    InternAllSingle(types0, table[i].sig);
  }

  /** A table with distinct spellings has a distinct spelling list. */
  lemma TextsDistinct(table: seq<Entry>)
    requires DistinctNames(table)
    ensures Distinct(Texts(table))
  {
    var texts := Texts(table);
    forall i, j | 0 <= i < j < |texts| ensures texts[i] != texts[j] {
      assert texts[i] == SymbolText(table[i]) && texts[j] == SymbolText(table[j]);
    }
  }

  /** The first `n` entries of `table` are recorded as the consecutive entities
      starting at `base`, entry `j` under the spelling `texts[j]`. */
  ghost predicate AllRecorded(table: seq<Entry>, texts: seq<string>, n: nat, base: nat,
                              symbols: seq<string>, types: seq<Ty>, entities: seq<Entity>, scope: map<Symbol, EntityRef>)
  {
    forall j {:trigger RecordedAs(symbols, types, entities, scope, texts[j], table[j], base + j)}
      :: 0 <= j < n && j < |table| && j < |texts| ==>
      RecordedAs(symbols, types, entities, scope, texts[j], table[j], base + j)
  }

  /** Every binding of `scope0` survives in `scope`, either unchanged or rebound
      to an entity allocated from `base` on. */
  ghost predicate ScopeKept(scope0: map<Symbol, EntityRef>, scope: map<Symbol, EntityRef>, base: nat)
  {
    && (forall k :: k in scope0 ==> k in scope)
    && (forall k :: k in scope ==> (k in scope0 && scope[k] == scope0[k]) || base <= scope[k])
  }

  /** Loop step of the registration: entry `i` joins the entries recorded before
      it, which stay recorded since their spellings differ from its spelling. */
  lemma RegisteredStep(table: seq<Entry>, texts: seq<string>, i: nat, base: nat,
                       symbols0: seq<string>, types0: seq<Ty>, entities0: seq<Entity>, scope0: map<Symbol, EntityRef>,
                       symbols: seq<string>, types: seq<Ty>, entities: seq<Entity>, scope: map<Symbol, EntityRef>)
    requires i < |table| == |texts| && Distinct(texts) && texts[i] == SymbolText(table[i])
    requires symbols0 <= symbols && types0 <= types && entities0 <= entities && |entities0| == base + i
    requires AllRecorded(table, texts, i, base, symbols0, types0, entities0, scope0)
    requires RecordedAt(symbols, types, entities, scope, table[i], base + i)
    requires scope == scope0[entities[base + i].symbol.value := base + i]
    ensures AllRecorded(table, texts, i + 1, base, symbols, types, entities, scope)
  {
    var k := entities[base + i].symbol.value;
    assert RecordedAs(symbols, types, entities, scope, texts[i], table[i], base + i);
    forall j | 0 <= j < i
      ensures RecordedAs(symbols, types, entities, scope, texts[j], table[j], base + j)
    {
      assert texts[j] != texts[i];
      RecordedAsKept(symbols0, types0, entities0, scope0, symbols, types, entities, k, base + i, texts[j], table[j], base + j);
    }
  }

  /** Every entry recorded in the first state under a text not among `texts` is
      still recorded in the second state. */
  ghost predicate RecordsKept(symbols0: seq<string>, types0: seq<Ty>, entities0: seq<Entity>, scope0: map<Symbol, EntityRef>,
                              symbols: seq<string>, types: seq<Ty>, entities: seq<Entity>, scope: map<Symbol, EntityRef>,
                              texts: seq<string>)
  {
    forall text, entry, e :: RecordedAs(symbols0, types0, entities0, scope0, text, entry, e) && text !in texts ==>
      RecordedAs(symbols, types, entities, scope, text, entry, e)
  }

  /** After the registration of `table` from entity `base` on, every entry
      recorded before under a text that no line of `table` uses is still
      recorded: its symbol was not rebound, since a rebound symbol carries the
      spelling of a line. */
  lemma RecordsKeptAfter(table: seq<Entry>, texts: seq<string>, base: nat,
                         symbols0: seq<string>, types0: seq<Ty>, entities0: seq<Entity>, scope0: map<Symbol, EntityRef>,
                         symbols: seq<string>, types: seq<Ty>, entities: seq<Entity>, scope: map<Symbol, EntityRef>)
    requires WellFormed(symbols, types, entities, scope)
    requires |texts| == |table| && |entities0| == base && |entities| == base + |table|
    requires symbols0 <= symbols && types0 <= types && entities0 <= entities
    requires AllRecorded(table, texts, |table|, base, symbols, types, entities, scope)
    requires ScopeKept(scope0, scope, base)
    ensures RecordsKept(symbols0, types0, entities0, scope0, symbols, types, entities, scope, texts)
  {
    forall text: string, entry: Entry, e: EntityRef | RecordedAs(symbols0, types0, entities0, scope0, text, entry, e) && text !in texts
      ensures RecordedAs(symbols, types, entities, scope, text, entry, e)
    {
      var k := entities0[e].symbol.value;
      assert symbols[k] == symbols0[k] == text;
      var j := scope[k] - base;
      assert 0 <= j ==> RecordedAs(symbols, types, entities, scope, texts[j], table[j], base + j);
      assert entities[e] == entities0[e];
      assert types[entities0[e].typ] == types0[entities0[e].typ];
      if entities0[e].actualName.Some? {
        assert symbols[entities0[e].actualName.value] == symbols0[entities0[e].actualName.value];
      }
    }
  }

  /** Registering the Microsoft intrinsics after the gnu builtins leaves every
      gnu builtin recorded: no intrinsic is spelled like a gnu builtin, so none
      of their symbols is rebound. */
  lemma GnuRecordsSurviveMicrosoft(base: nat,
                                   symbols1: seq<string>, types1: seq<Ty>, entities1: seq<Entity>, scope1: map<Symbol, EntityRef>,
                                   symbols: seq<string>, types: seq<Ty>, entities: seq<Entity>, scope: map<Symbol, EntityRef>)
    requires AllRecorded(GnuBuiltins, Texts(GnuBuiltins), |GnuBuiltins|, base, symbols1, types1, entities1, scope1)
    requires RecordsKept(symbols1, types1, entities1, scope1, symbols, types, entities, scope, Texts(MicrosoftIntrinsics))
    ensures AllRecorded(GnuBuiltins, Texts(GnuBuiltins), |GnuBuiltins|, base, symbols, types, entities, scope)
  {
    GnuMicrosoftDisjoint();
    var g, m := Texts(GnuBuiltins), Texts(MicrosoftIntrinsics);
    forall j | 0 <= j < |GnuBuiltins|
      ensures RecordedAs(symbols, types, entities, scope, g[j], GnuBuiltins[j], base + j)
    {
      forall k | 0 <= k < |m| ensures m[k] != g[j] {
        assert SymbolText(GnuBuiltins[j]) != SymbolText(MicrosoftIntrinsics[k]);
      }
      assert RecordedAs(symbols1, types1, entities1, scope1, g[j], GnuBuiltins[j], base + j);
    }
  }

  /** Rebinding a symbol to an entity allocated from `base` on keeps the bindings
      of the scope the registration started from. */
  lemma ScopeKeptStep(scopeStart: map<Symbol, EntityRef>, scope: map<Symbol, EntityRef>, base: nat, k: Symbol, e: EntityRef)
    requires ScopeKept(scopeStart, scope, base) && base <= e
    ensures ScopeKept(scopeStart, scope[k := e], base)
  {
  }

  /** A recorded entry stays recorded when the stores only grow and the scope is
      rebound at a symbol with a different text. */
  lemma RecordedAsKept(symbols: seq<string>, types: seq<Ty>, entities: seq<Entity>, scope: map<Symbol, EntityRef>,
                       symbols': seq<string>, types': seq<Ty>, entities': seq<Entity>, k: Symbol, e': EntityRef,
                       text: string, entry: Entry, e: EntityRef)
    requires RecordedAs(symbols, types, entities, scope, text, entry, e)
    requires symbols <= symbols' && types <= types' && entities <= entities'
    requires k < |symbols'| && symbols'[k] != text
    ensures RecordedAs(symbols', types', entities', scope[k := e'], text, entry, e)
  {
    var ks := entities[e].symbol.value;
    assert symbols'[ks] == symbols[ks];
    assert entities'[e] == entities[e];
    assert types'[entities[e].typ] == types[entities[e].typ];
    if entities[e].actualName.Some? {
      assert symbols'[entities[e].actualName.value] == symbols[entities[e].actualName.value];
    }
  }

  /** The builtin symbol of a recorded entry leads to its entity: since a text is
      interned once, no other symbol has that text. */
  lemma RecordedLookup(symbols: seq<string>, types: seq<Ty>, entities: seq<Entity>, scope: map<Symbol, EntityRef>,
                       entry: Entry, e: EntityRef, k: Symbol)
    requires WellFormed(symbols, types, entities, scope)
    requires RecordedAt(symbols, types, entities, scope, entry, e)
    requires k < |symbols| && symbols[k] == SymbolText(entry)
    ensures k in scope && scope[k] == e && entities[e].kind == FunctionEntity && entities[e].implicit
  {
  }

  /** The outcome `merge_builtin` gives a declaration `def`, from its state `d`
      before the merge to the state after it. */
  ghost predicate MergeOutcome(d: Entity, def: EntityRef, kind: BuiltinKind, sig: Ty,
                               types: seq<Ty>, entities: seq<Entity>, warnings: seq<Warning>,
                               skip: Ty -> Ty, compatible: (Ty, Ty) -> bool)
  {
    && def < |entities| && d.typ < |types|
    && if d.kind != FunctionEntity then
         entities[def] == d && MustBeFunction(def) in warnings
       else if !compatible(skip(types[d.typ]), sig) then
         entities[def] == d && IncompatibleDeclaration(def, types[d.typ], sig) in warnings
       else
         && entities[def] == d.(mergedBuiltin := entities[def].mergedBuiltin)
         && entities[def].mergedBuiltin.Some?
         && var b := entities[def].mergedBuiltin.value;
         && b < |entities| && entities[b].typ < |types| && types[entities[b].typ] == sig
         && entities[b] == BuiltinFunction(kind, d.symbol, entities[b].typ).(builtinInLib := true)
  }

  /** The names of the first `i` merge entries. */
  ghost function MergeNamesBelow(i: nat): set<string>
  {
    set j | 0 <= j < i && j < |ComplexMerges| :: ComplexMerges[j].name
  }

  /** The names `find_known_libc_functions` looks up. */
  ghost const ComplexMergeNames: set<string> := MergeNamesBelow(|ComplexMerges|)

  lemma MergeNameFresh(i: nat)
    requires i < |ComplexMerges|
    ensures ComplexMerges[i].name !in MergeNamesBelow(i)
    ensures MergeNamesBelow(i + 1) == MergeNamesBelow(i) + {ComplexMerges[i].name}
  {
    ComplexMergesDistinct();
  }

  /** Between `before` and `entities`, every entity kept its symbol and only
      those declared under one of `names` changed; the store only grew. */
  ghost predicate ChangedOnlyAmong(before: seq<Entity>, entities: seq<Entity>, symbols: seq<string>, names: set<string>)
  {
    && |before| <= |entities|
    && forall x :: 0 <= x < |before| ==>
         && entities[x].symbol == before[x].symbol
         && (entities[x] == before[x]
             || (before[x].symbol.Some? && before[x].symbol.value < |symbols|
                 && symbols[before[x].symbol.value] in names))
  }

  /** Between `entities` and `entities'`, only entities declared under a symbol
      with text `name` changed (and only their merge link), and the store only
      grew. */
  ghost predicate ChangesOnlyNamed(entities: seq<Entity>, entities': seq<Entity>, symbols: seq<string>, name: string)
  {
    && |entities| <= |entities'|
    && forall x :: 0 <= x < |entities| ==>
         && entities'[x].symbol == entities[x].symbol
         && (entities'[x] == entities[x]
             || (entities[x].symbol.Some? && entities[x].symbol.value < |symbols|
                 && symbols[entities[x].symbol.value] == name))
  }

  /** What `find_known_libc_functions` promises for one merge entry: if its name
      is declared, the declaration found gets the outcome of `merge_builtin`. */
  ghost predicate MergeEntryDone(me: MergeEntry, scope: map<Symbol, EntityRef>, before: seq<Entity>,
                                 symbols: seq<string>, types: seq<Ty>, entities: seq<Entity>, warnings: seq<Warning>,
                                 skip: Ty -> Ty, compatible: (Ty, Ty) -> bool)
  {
    && me.name in symbols
    && forall k :: 0 <= k < |symbols| && symbols[k] == me.name && k in scope ==>
         scope[k] < |before| && MergeOutcome(before[scope[k]], scope[k], me.kind, me.sig, types, entities, warnings, skip, compatible)
  }

  /** The first `n` merge entries are done. */
  ghost predicate MergesDone(n: nat, scope: map<Symbol, EntityRef>, before: seq<Entity>,
                             symbols: seq<string>, types: seq<Ty>, entities: seq<Entity>, warnings: seq<Warning>,
                             skip: Ty -> Ty, compatible: (Ty, Ty) -> bool)
    requires n <= |ComplexMerges|
  {
    forall j {:trigger MergeEntryDone(ComplexMerges[j], scope, before, symbols, types, entities, warnings, skip, compatible)}
      :: 0 <= j < n ==>
      MergeEntryDone(ComplexMerges[j], scope, before, symbols, types, entities, warnings, skip, compatible)
  }

  /** A merge entry that is done stays done when a later step interns symbols,
      types and builtins and changes only declarations of another name. */
  lemma MergeEntryDoneKept(me: MergeEntry, name: string, scope: map<Symbol, EntityRef>, before: seq<Entity>,
                           symbols: seq<string>, types: seq<Ty>, entities: seq<Entity>, warnings: seq<Warning>,
                           symbols': seq<string>, types': seq<Ty>, entities': seq<Entity>, warnings': seq<Warning>,
                           skip: Ty -> Ty, compatible: (Ty, Ty) -> bool)
    requires WellFormed(symbols, types, entities, scope) && WellFormed(symbols', types', entities', scope)
    requires MergeEntryDone(me, scope, before, symbols, types, entities, warnings, skip, compatible)
    requires symbols <= symbols' && types <= types' && warnings <= warnings'
    requires ChangesOnlyNamed(entities, entities', symbols, name) && name != me.name
    ensures MergeEntryDone(me, scope, before, symbols', types', entities', warnings', skip, compatible)
  {
    forall k | 0 <= k < |symbols'| && symbols'[k] == me.name && k in scope
      ensures scope[k] < |before|
      ensures MergeOutcome(before[scope[k]], scope[k], me.kind, me.sig, types', entities', warnings', skip, compatible)
    {
      assert k < |symbols|;
      assert symbols[k] == me.name;
      var def := scope[k];
      var d := before[def];
      assert entities[def].symbol == Some(k);
      assert entities'[def] == entities[def];
      assert types'[d.typ] == types[d.typ];
      if d.kind == FunctionEntity && compatible(skip(types[d.typ]), me.sig) {
        var b := entities[def].mergedBuiltin.value;
        assert entities'[b] == entities[b];
        assert types'[entities[b].typ] == types[entities[b].typ];
      }
    }
  }

  /** The step's own promise, stated against the entities before the step, holds
      against the entities before the first line: the step's declarations were not
      touched by earlier steps, which changed only other names. */
  lemma MergeEntryDoneRebased(me: MergeEntry, scope: map<Symbol, EntityRef>, before0: seq<Entity>, before: seq<Entity>,
                              names: set<string>, symbols0: seq<string>,
                              symbols: seq<string>, types: seq<Ty>, entities: seq<Entity>, warnings: seq<Warning>,
                              skip: Ty -> Ty, compatible: (Ty, Ty) -> bool)
    requires forall k :: k in scope ==> scope[k] < |before0| && before0[scope[k]].symbol == Some(k)
    requires symbols0 <= symbols && ChangedOnlyAmong(before0, before, symbols0, names)
    requires me.name !in names
    requires MergeEntryDone(me, scope, before, symbols, types, entities, warnings, skip, compatible)
    ensures MergeEntryDone(me, scope, before0, symbols, types, entities, warnings, skip, compatible)
  {
    forall k | 0 <= k < |symbols| && symbols[k] == me.name && k in scope
      ensures scope[k] < |before0|
      ensures MergeOutcome(before0[scope[k]], scope[k], me.kind, me.sig, types, entities, warnings, skip, compatible)
    {
      var def := scope[k];
      assert before0[def].symbol == Some(k);
    }
  }

  /** Loop step of `find_known_libc_functions`: after merging entry `i`, the first
      `i + 1` entries are done and only their declarations changed. */
  lemma MergesDoneStep(i: nat, scope: map<Symbol, EntityRef>, before: seq<Entity>,
                       symbols0: seq<string>, types0: seq<Ty>, entities0: seq<Entity>, warnings0: seq<Warning>,
                       symbols: seq<string>, types: seq<Ty>, entities: seq<Entity>, warnings: seq<Warning>,
                       skip: Ty -> Ty, compatible: (Ty, Ty) -> bool)
    requires i < |ComplexMerges|
    requires forall k :: k in scope ==> scope[k] < |before| && before[scope[k]].symbol == Some(k)
    requires WellFormed(symbols0, types0, entities0, scope) && WellFormed(symbols, types, entities, scope)
    requires MergesDone(i, scope, before, symbols0, types0, entities0, warnings0, skip, compatible)
    requires ChangedOnlyAmong(before, entities0, symbols0, MergeNamesBelow(i))
    requires symbols0 <= symbols && types0 <= types && warnings0 <= warnings
    requires ChangesOnlyNamed(entities0, entities, symbols, ComplexMerges[i].name)
    requires MergeEntryDone(ComplexMerges[i], scope, entities0, symbols, types, entities, warnings, skip, compatible)
    ensures MergesDone(i + 1, scope, before, symbols, types, entities, warnings, skip, compatible)
    ensures ChangedOnlyAmong(before, entities, symbols, MergeNamesBelow(i + 1))
  {
    var name := ComplexMerges[i].name;
    MergeNameFresh(i);
    forall j | 0 <= j < i
      ensures MergeEntryDone(ComplexMerges[j], scope, before, symbols, types, entities, warnings, skip, compatible)
    {
      assert ComplexMerges[j].name in MergeNamesBelow(i);
      MergeEntryDoneKept(ComplexMerges[j], name, scope, before, symbols0, types0, entities0, warnings0,
                         symbols, types, entities, warnings, skip, compatible);
    }
    MergeEntryDoneRebased(ComplexMerges[i], scope, before, entities0, MergeNamesBelow(i), symbols0,
                          symbols, types, entities, warnings, skip, compatible);
    forall x | 0 <= x < |before|
      ensures entities[x].symbol == before[x].symbol
      ensures entities[x] == before[x]
              || (before[x].symbol.Some? && before[x].symbol.value < |symbols|
                  && symbols[before[x].symbol.value] in MergeNamesBelow(i + 1))
    {
      if before[x].symbol.Some? && before[x].symbol.value < |symbols0| {
        assert symbols[before[x].symbol.value] == symbols0[before[x].symbol.value];
      }
    }
  }

  /** The new entities and warnings of `merge_builtin(def, kind, t)`, exactly. */
  ghost predicate Merged(before: seq<Entity>, warnings0: seq<Warning>, def: EntityRef, kind: BuiltinKind, t: TypeRef,
                         types: seq<Ty>, entities: seq<Entity>, warnings: seq<Warning>,
                         skip: Ty -> Ty, compatible: (Ty, Ty) -> bool)
  {
    && def < |before| && t < |types| && before[def].typ < |types|
    && var d := before[def];
    if d.kind != FunctionEntity then
      entities == before && warnings == warnings0 + [MustBeFunction(def)]
    else if !compatible(skip(types[d.typ]), types[t]) then
      entities == before && warnings == warnings0 + [IncompatibleDeclaration(def, types[d.typ], types[t])]
    else
      && warnings == warnings0
      && entities == (before + [BuiltinFunction(kind, d.symbol, t).(builtinInLib := true)])
                       [def := d.(mergedBuiltin := Some(|before|))]
  }

  /** The exact merge gives the outcome `MergeOutcome` describes, and touches no
      other existing entity. */
  lemma MergedOutcome(before: seq<Entity>, warnings0: seq<Warning>, def: EntityRef, kind: BuiltinKind, t: TypeRef,
                      types: seq<Ty>, entities: seq<Entity>, warnings: seq<Warning>,
                      skip: Ty -> Ty, compatible: (Ty, Ty) -> bool)
    requires Merged(before, warnings0, def, kind, t, types, entities, warnings, skip, compatible)
    ensures MergeOutcome(before[def], def, kind, types[t], types, entities, warnings, skip, compatible)
    ensures warnings == warnings0 + MergeWarning(before[def], def, types[t], types, skip, compatible)
    ensures warnings0 <= warnings && |before| <= |entities|
    ensures forall x :: 0 <= x < |before| ==>
      entities[x].symbol == before[x].symbol && (x == def || entities[x] == before[x])
  {
  }

  /** One merge step, in terms of its outcome on the declaration found under the
      symbol `k` of the merged name. */
  lemma MergeStepDone(me: MergeEntry, scope: map<Symbol, EntityRef>, before: seq<Entity>,
                      symbols: seq<string>, types0: seq<Ty>, types: seq<Ty>, entities: seq<Entity>, warnings: seq<Warning>,
                      skip: Ty -> Ty, compatible: (Ty, Ty) -> bool, k: Symbol)
    requires WellFormed(symbols, types0, before, scope)
    requires k < |symbols| && symbols[k] == me.name && k in scope
    requires MergeOutcome(before[scope[k]], scope[k], me.kind, me.sig, types, entities, warnings, skip, compatible)
    requires |before| <= |entities|
    requires forall x :: 0 <= x < |before| ==>
      entities[x].symbol == before[x].symbol && (x == scope[k] || entities[x] == before[x])
    ensures ChangesOnlyNamed(before, entities, symbols, me.name)
    ensures MergeEntryDone(me, scope, before, symbols, types, entities, warnings, skip, compatible)
  {
    assert before[scope[k]].symbol == Some(k);
  }

  // ---- Declarations and the warnings of the merger ------------------------

  /** The entity the global scope binds `name` to: none when `name` is not
      interned or its symbol is unbound. */
  function Declaration(symbols: seq<string>, scope: map<Symbol, EntityRef>, name: string): Option<EntityRef>
  {
    match IndexOf(symbols, name)
    case None => None
    case Some(k) => if k in scope then Some(scope[k]) else None
  }

  /** Interning more texts does not change what a name is declared as: a text
      interned only later has no binding. */
  lemma DeclarationStable(symbols: seq<string>, symbols': seq<string>, scope: map<Symbol, EntityRef>, name: string)
    requires symbols <= symbols' && forall k :: k in scope ==> k < |symbols|
    ensures Declaration(symbols', scope, name) == Declaration(symbols, scope, name)
  {
    IndexOfExtended(symbols, symbols', name);
  }

  /** A declaration is an entity declared under the symbol of its name. */
  lemma DeclarationNamed(symbols: seq<string>, types: seq<Ty>, entities: seq<Entity>, scope: map<Symbol, EntityRef>,
                         name: string)
    requires WellFormed(symbols, types, entities, scope) && Declaration(symbols, scope, name).Some?
    ensures var def := Declaration(symbols, scope, name).value;
      && def < |entities| && entities[def].symbol.Some? && entities[def].symbol.value < |symbols|
      && symbols[entities[def].symbol.value] == name
  {
  }

  /** The warning `merge_builtin` emits for declaration `def`, in state `d`,
      against the standard's type `sig`: one for a non-function, one for an
      incompatible type, none for a merge. */
  function MergeWarning(d: Entity, def: EntityRef, sig: Ty, types: seq<Ty>,
                        skip: Ty -> Ty, compatible: (Ty, Ty) -> bool): seq<Warning>
    requires d.typ < |types|
  {
    if d.kind != FunctionEntity then [MustBeFunction(def)]
    else if !compatible(skip(types[d.typ]), sig) then [IncompatibleDeclaration(def, types[d.typ], sig)]
    else []
  }

  /** The warnings one line of `find_known_libc_functions` emits: none for an
      undeclared name, the warning of `merge_builtin` for a declared one. */
  ghost function LineWarnings(symbols: seq<string>, types: seq<Ty>, entities: seq<Entity>, scope: map<Symbol, EntityRef>,
                              me: MergeEntry, skip: Ty -> Ty, compatible: (Ty, Ty) -> bool): seq<Warning>
    requires WellFormed(symbols, types, entities, scope)
  {
    match Declaration(symbols, scope, me.name)
    case None => []
    case Some(def) => MergeWarning(entities[def], def, me.sig, types, skip, compatible)
  }

  /** The warnings of the first `n` lines of `find_known_libc_functions`, in
      table order, judged on the session before the first line. */
  ghost function MergeWarnings(symbols: seq<string>, types: seq<Ty>, entities: seq<Entity>, scope: map<Symbol, EntityRef>,
                               n: nat, skip: Ty -> Ty, compatible: (Ty, Ty) -> bool): seq<Warning>
    requires WellFormed(symbols, types, entities, scope) && n <= |ComplexMerges|
  {
    if n == 0 then []
    else MergeWarnings(symbols, types, entities, scope, n - 1, skip, compatible)
         + LineWarnings(symbols, types, entities, scope, ComplexMerges[n - 1], skip, compatible)
  }

  /** The declarations the first `n` lines of `find_known_libc_functions` find. */
  function MergedDeclarations(symbols: seq<string>, scope: map<Symbol, EntityRef>, n: nat): set<EntityRef>
    requires n <= |ComplexMerges|
  {
    if n == 0 then {}
    else MergedDeclarations(symbols, scope, n - 1)
         + match Declaration(symbols, scope, ComplexMerges[n - 1].name)
           case None => {}
           case Some(def) => {def}
  }

  /** The names the first `n` lines of `find_known_libc_functions` look up, in
      order. */
  function MergeNames(n: nat): (r: seq<string>)
    requires n <= |ComplexMerges|
    ensures |r| == n && forall j :: 0 <= j < n ==> r[j] == ComplexMerges[j].name
  {
    if n == 0 then [] else MergeNames(n - 1) + [ComplexMerges[n - 1].name]
  }

  /** The type store after the three `make_complex_type` calls: the complex
      `float`, `double` and `long double` types interned, in this order. */
  function WithComplexTypes(types: seq<Ty>): seq<Ty>
  {
    Interned(Interned(Interned(types, ComplexTy(Float)), ComplexTy(Double)), ComplexTy(LongDouble))
  }

  /** The type store after the complex types and the first `n` lines of
      `find_known_libc_functions`: a line whose name is declared interns the
      standard's type; any other line builds no type. */
  function MergeTypes(symbols: seq<string>, scope: map<Symbol, EntityRef>, types: seq<Ty>, n: nat): seq<Ty>
    requires n <= |ComplexMerges|
  {
    if n == 0 then WithComplexTypes(types)
    else
      var before := MergeTypes(symbols, scope, types, n - 1);
      if Declaration(symbols, scope, ComplexMerges[n - 1].name).Some? then Interned(before, ComplexMerges[n - 1].sig)
      else before
  }

  /** The number of builtin records one line creates: one when its name is
      declared by a function whose type is compatible with the standard's,
      none otherwise. */
  ghost function LineBuiltins(symbols: seq<string>, types: seq<Ty>, entities: seq<Entity>, scope: map<Symbol, EntityRef>,
                              me: MergeEntry, skip: Ty -> Ty, compatible: (Ty, Ty) -> bool): nat
    requires WellFormed(symbols, types, entities, scope)
  {
    match Declaration(symbols, scope, me.name)
    case None => 0
    case Some(def) => if MergeWarning(entities[def], def, me.sig, types, skip, compatible) == [] then 1 else 0
  }

  /** The number of builtin records the first `n` lines create, judged on the
      session before the first line. */
  ghost function MergeBuiltins(symbols: seq<string>, types: seq<Ty>, entities: seq<Entity>, scope: map<Symbol, EntityRef>,
                               n: nat, skip: Ty -> Ty, compatible: (Ty, Ty) -> bool): nat
    requires WellFormed(symbols, types, entities, scope) && n <= |ComplexMerges|
  {
    if n == 0 then 0
    else MergeBuiltins(symbols, types, entities, scope, n - 1, skip, compatible)
         + LineBuiltins(symbols, types, entities, scope, ComplexMerges[n - 1], skip, compatible)
  }

  /** Line `i` finds a declaration no earlier line found: the six names differ,
      so their symbols differ, and an entity is declared under one symbol only. */
  lemma {:induction false} DeclarationFresh(symbols: seq<string>, types: seq<Ty>, entities: seq<Entity>,
                                            scope: map<Symbol, EntityRef>, i: nat, n: nat)
    requires WellFormed(symbols, types, entities, scope) && n <= i < |ComplexMerges|
    requires Declaration(symbols, scope, ComplexMerges[i].name).Some?
    ensures Declaration(symbols, scope, ComplexMerges[i].name).value !in MergedDeclarations(symbols, scope, n)
  {
    if n > 0 {
      DeclarationFresh(symbols, types, entities, scope, i, n - 1);
      ComplexMergesDistinct();
      var j := n - 1;
      if Declaration(symbols, scope, ComplexMerges[j].name).Some? {
        DeclarationNamed(symbols, types, entities, scope, ComplexMerges[i].name);
        DeclarationNamed(symbols, types, entities, scope, ComplexMerges[j].name);
        assert ComplexMerges[j].name != ComplexMerges[i].name;
      }
    }
  }

  /** The warnings of line `i`, judged on the session the line starts from, are
      those judged on the session before the first line: earlier lines only
      interned texts and types and changed other declarations. */
  lemma LineWarningsRebased(symbolsS: seq<string>, typesS: seq<Ty>, entitiesS: seq<Entity>,
                            symbols: seq<string>, types: seq<Ty>, entities: seq<Entity>,
                            scope: map<Symbol, EntityRef>, i: nat, skip: Ty -> Ty, compatible: (Ty, Ty) -> bool)
    requires WellFormed(symbolsS, typesS, entitiesS, scope) && WellFormed(symbols, types, entities, scope)
    requires i < |ComplexMerges| && symbolsS <= symbols && typesS <= types && |entitiesS| <= |entities|
    requires forall x :: 0 <= x < |entitiesS| && x !in MergedDeclarations(symbolsS, scope, i) ==> entities[x] == entitiesS[x]
    ensures Declaration(symbols, scope, ComplexMerges[i].name) == Declaration(symbolsS, scope, ComplexMerges[i].name)
    ensures LineWarnings(symbols, types, entities, scope, ComplexMerges[i], skip, compatible)
         == LineWarnings(symbolsS, typesS, entitiesS, scope, ComplexMerges[i], skip, compatible)
    ensures LineBuiltins(symbols, types, entities, scope, ComplexMerges[i], skip, compatible)
         == LineBuiltins(symbolsS, typesS, entitiesS, scope, ComplexMerges[i], skip, compatible)
  {
    var name := ComplexMerges[i].name;
    DeclarationStable(symbolsS, symbols, scope, name);
    var r := Declaration(symbolsS, scope, name);
    if r.Some? {
      DeclarationFresh(symbolsS, typesS, entitiesS, scope, i, i);
      assert entities[r.value] == entitiesS[r.value];
      assert types[entitiesS[r.value].typ] == typesS[entitiesS[r.value].typ];
    }
  }

  /** The exact effect of one line of `find_known_libc_functions` on a session
      that starts as `symbols0`, `types0`, `entities0`, `warnings0`: the name is
      interned; an undeclared name changes nothing else; a declared one gets
      the standard's type interned and the outcome of `merge_builtin`, and no
      other existing entity changes. */
  ghost predicate LineMerged(symbols0: seq<string>, types0: seq<Ty>, entities0: seq<Entity>, warnings0: seq<Warning>,
                             scope: map<Symbol, EntityRef>, me: MergeEntry,
                             symbols: seq<string>, types: seq<Ty>, entities: seq<Entity>, warnings: seq<Warning>,
                             skip: Ty -> Ty, compatible: (Ty, Ty) -> bool)
    requires WellFormed(symbols0, types0, entities0, scope)
  {
    && symbols == Interned(symbols0, me.name)
    && types0 <= types && warnings0 <= warnings && |entities0| <= |entities|
    && warnings == warnings0 + LineWarnings(symbols0, types0, entities0, scope, me, skip, compatible)
    && |entities| == |entities0| + LineBuiltins(symbols0, types0, entities0, scope, me, skip, compatible)
    && (forall x :: 0 <= x < |entities0| && Some(x) != Declaration(symbols0, scope, me.name) ==> entities[x] == entities0[x])
    && match Declaration(symbols0, scope, me.name)
       case None => types == types0 && entities == entities0
       case Some(def) =>
         && types == Interned(types0, me.sig)
         && |types| == |types0| + (if me.sig in types0 then 0 else 1) && me.sig in types
         && Merged(entities0, warnings0, def, me.kind, IndexOf(types, me.sig).value, types, entities, warnings, skip, compatible)
  }

  /** A line whose name is declared: interning the name, then the standard's
      type, then merging gives `LineMerged`, and also the per-name outcome. */
  lemma DeclaredLineMerged(symbols0: seq<string>, types0: seq<Ty>, entities0: seq<Entity>, warnings0: seq<Warning>,
                           scope: map<Symbol, EntityRef>, me: MergeEntry, def: EntityRef,
                           symbols: seq<string>, types: seq<Ty>, entities: seq<Entity>, warnings: seq<Warning>,
                           skip: Ty -> Ty, compatible: (Ty, Ty) -> bool)
    requires WellFormed(symbols0, types0, entities0, scope) && WellFormed(symbols, types0, entities0, scope)
    requires symbols == Interned(symbols0, me.name) && Declaration(symbols0, scope, me.name) == Some(def)
    requires Declaration(symbols, scope, me.name) == Some(def)
    requires types == Interned(types0, me.sig)
    requires types0 <= types && |types| == |types0| + (if me.sig in types0 then 0 else 1) && me.sig in types
    requires Merged(entities0, warnings0, def, me.kind, IndexOf(types, me.sig).value, types, entities, warnings, skip, compatible)
    ensures LineMerged(symbols0, types0, entities0, warnings0, scope, me, symbols, types, entities, warnings, skip, compatible)
    ensures ChangesOnlyNamed(entities0, entities, symbols, me.name)
    ensures MergeEntryDone(me, scope, entities0, symbols, types, entities, warnings, skip, compatible)
  {
    var t := IndexOf(types, me.sig).value;
    MergedOutcome(entities0, warnings0, def, me.kind, t, types, entities, warnings, skip, compatible);
    var k := IndexOf(symbols, me.name).value;
    MergeStepDone(me, scope, entities0, symbols, types0, types, entities, warnings, skip, compatible, k);
  }

  /** A line whose name is not declared changes nothing but the symbol table. */
  lemma UndeclaredLineMerged(symbols0: seq<string>, types: seq<Ty>, entities: seq<Entity>, warnings: seq<Warning>,
                             scope: map<Symbol, EntityRef>, me: MergeEntry, symbols: seq<string>,
                             skip: Ty -> Ty, compatible: (Ty, Ty) -> bool)
    requires WellFormed(symbols0, types, entities, scope)
    requires symbols == Interned(symbols0, me.name) && Declaration(symbols0, scope, me.name).None?
    requires Declaration(symbols, scope, me.name).None?
    ensures LineMerged(symbols0, types, entities, warnings, scope, me, symbols, types, entities, warnings, skip, compatible)
    ensures ChangesOnlyNamed(entities, entities, symbols, me.name)
    ensures MergeEntryDone(me, scope, entities, symbols, types, entities, warnings, skip, compatible)
  {
    assert forall k :: 0 <= k < |symbols| && symbols[k] == me.name ==> k == IndexOf(symbols, me.name).value;
  }

  /** What the first `n` lines of `find_known_libc_functions` did to the session
      `symbolsS`, `typesS`, `entitiesS`, `warningsS` before the first line: the
      warnings are those of the lines in table order, and no entity other than
      the declarations found changed. */
  ghost predicate LinesMerged(symbolsS: seq<string>, typesS: seq<Ty>, entitiesS: seq<Entity>, warningsS: seq<Warning>,
                              scope: map<Symbol, EntityRef>, n: nat,
                              symbols: seq<string>, types: seq<Ty>, entities: seq<Entity>, warnings: seq<Warning>,
                              skip: Ty -> Ty, compatible: (Ty, Ty) -> bool)
    requires WellFormed(symbolsS, typesS, entitiesS, scope) && n <= |ComplexMerges|
  {
    && symbolsS <= symbols && typesS <= types && |entitiesS| <= |entities|
    && LinesGrown(symbolsS, typesS, entitiesS, scope, n, symbols, types, entities, skip, compatible)
    && warnings == warningsS + MergeWarnings(symbolsS, typesS, entitiesS, scope, n, skip, compatible)
    && forall x :: 0 <= x < |entitiesS| && x !in MergedDeclarations(symbolsS, scope, n) ==> entities[x] == entitiesS[x]
  }

  /** Line `i` of `find_known_libc_functions` appends its own warnings, judged as
      on the session before the first line. */
  lemma MergeWarningsStep(symbolsS: seq<string>, typesS: seq<Ty>, entitiesS: seq<Entity>, warningsS: seq<Warning>,
                          scope: map<Symbol, EntityRef>, i: nat,
                          symbols0: seq<string>, types0: seq<Ty>, entities0: seq<Entity>, warnings0: seq<Warning>,
                          warnings: seq<Warning>, skip: Ty -> Ty, compatible: (Ty, Ty) -> bool)
    requires WellFormed(symbolsS, typesS, entitiesS, scope) && WellFormed(symbols0, types0, entities0, scope)
    requires i < |ComplexMerges| && symbolsS <= symbols0 && typesS <= types0 && |entitiesS| <= |entities0|
    requires forall x :: 0 <= x < |entitiesS| && x !in MergedDeclarations(symbolsS, scope, i) ==> entities0[x] == entitiesS[x]
    requires warnings0 == warningsS + MergeWarnings(symbolsS, typesS, entitiesS, scope, i, skip, compatible)
    requires warnings == warnings0 + LineWarnings(symbols0, types0, entities0, scope, ComplexMerges[i], skip, compatible)
    ensures warnings == warningsS + MergeWarnings(symbolsS, typesS, entitiesS, scope, i + 1, skip, compatible)
  {
    LineWarningsRebased(symbolsS, typesS, entitiesS, symbols0, types0, entities0, scope, i, skip, compatible);
  }

  /** Line `i` of `find_known_libc_functions` changes no entity but the
      declaration it finds, which no earlier line found. */
  lemma MergedDeclarationsStep(symbolsS: seq<string>, entitiesS: seq<Entity>, scope: map<Symbol, EntityRef>, i: nat,
                               symbols0: seq<string>, entities0: seq<Entity>, entities: seq<Entity>)
    requires i < |ComplexMerges| && symbolsS <= symbols0 && forall k :: k in scope ==> k < |symbolsS|
    requires |entitiesS| <= |entities0| <= |entities|
    requires forall x :: 0 <= x < |entitiesS| && x !in MergedDeclarations(symbolsS, scope, i) ==> entities0[x] == entitiesS[x]
    requires forall x :: 0 <= x < |entities0| && Some(x) != Declaration(symbols0, scope, ComplexMerges[i].name) ==>
      entities[x] == entities0[x]
    ensures forall x :: 0 <= x < |entitiesS| && x !in MergedDeclarations(symbolsS, scope, i + 1) ==> entities[x] == entitiesS[x]
  {
    DeclarationStable(symbolsS, symbols0, scope, ComplexMerges[i].name);
  }

  /** What the first `n` lines of `find_known_libc_functions` add to the
      session `symbolsS`, `typesS`, `entitiesS` they start from: exactly their
      names, the complex types and the standard's type of each declared line,
      and one builtin record per line that finds a compatible function. */
  ghost predicate LinesGrown(symbolsS: seq<string>, typesS: seq<Ty>, entitiesS: seq<Entity>, scope: map<Symbol, EntityRef>,
                             n: nat, symbols: seq<string>, types: seq<Ty>, entities: seq<Entity>,
                             skip: Ty -> Ty, compatible: (Ty, Ty) -> bool)
    requires WellFormed(symbolsS, typesS, entitiesS, scope) && n <= |ComplexMerges|
  {
    && symbols == InternAll(symbolsS, MergeNames(n))
    && types == MergeTypes(symbolsS, scope, typesS, n)
    && |entities| == |entitiesS| + MergeBuiltins(symbolsS, typesS, entitiesS, scope, n, skip, compatible)
  }

  /** Line `i` of `find_known_libc_functions` keeps `LinesGrown`. */
  lemma LinesGrownStep(symbolsS: seq<string>, typesS: seq<Ty>, entitiesS: seq<Entity>, scope: map<Symbol, EntityRef>, i: nat,
                       symbols0: seq<string>, types0: seq<Ty>, entities0: seq<Entity>,
                       symbols: seq<string>, types: seq<Ty>, entities: seq<Entity>, warnings0: seq<Warning>, warnings: seq<Warning>,
                       skip: Ty -> Ty, compatible: (Ty, Ty) -> bool)
    requires WellFormed(symbolsS, typesS, entitiesS, scope) && WellFormed(symbols0, types0, entities0, scope)
    requires i < |ComplexMerges|
    requires symbolsS <= symbols0 && typesS <= types0 && |entitiesS| <= |entities0|
    requires forall x :: 0 <= x < |entitiesS| && x !in MergedDeclarations(symbolsS, scope, i) ==> entities0[x] == entitiesS[x]
    requires LinesGrown(symbolsS, typesS, entitiesS, scope, i, symbols0, types0, entities0, skip, compatible)
    requires LineMerged(symbols0, types0, entities0, warnings0, scope, ComplexMerges[i],
                        symbols, types, entities, warnings, skip, compatible)
    ensures LinesGrown(symbolsS, typesS, entitiesS, scope, i + 1, symbols, types, entities, skip, compatible)
  {
    LineWarningsRebased(symbolsS, typesS, entitiesS, symbols0, types0, entities0, scope, i, skip, compatible);
    MergeNamesStep(symbolsS, i, symbols0, symbols);
    MergeTypesStep(symbolsS, scope, typesS, i, symbols0, types0, types);
    MergeBuiltinsStep(symbolsS, typesS, entitiesS, scope, i, symbols0, types0, entities0, entities, skip, compatible);
  }

  /** Line `i` of `find_known_libc_functions` interns its name after those of
      the earlier lines. */
  lemma MergeNamesStep(symbolsS: seq<string>, i: nat, symbols0: seq<string>, symbols: seq<string>)
    requires i < |ComplexMerges|
    requires symbols0 == InternAll(symbolsS, MergeNames(i)) && symbols == Interned(symbols0, ComplexMerges[i].name)
    ensures symbols == InternAll(symbolsS, MergeNames(i + 1))
  {
    InternAllConcat(symbolsS, MergeNames(i), [ComplexMerges[i].name]);
    InternAllSingle(symbols0, ComplexMerges[i].name);
  }

  /** Line `i` of `find_known_libc_functions` interns the standard's type
      exactly when its name is declared. */
  lemma MergeTypesStep(symbolsS: seq<string>, scope: map<Symbol, EntityRef>, typesS: seq<Ty>, i: nat,
                       symbols0: seq<string>, types0: seq<Ty>, types: seq<Ty>)
    requires i < |ComplexMerges| && types0 == MergeTypes(symbolsS, scope, typesS, i)
    requires Declaration(symbols0, scope, ComplexMerges[i].name) == Declaration(symbolsS, scope, ComplexMerges[i].name)
    requires Declaration(symbols0, scope, ComplexMerges[i].name).None? ==> types == types0
    requires Declaration(symbols0, scope, ComplexMerges[i].name).Some? ==> types == Interned(types0, ComplexMerges[i].sig)
    ensures types == MergeTypes(symbolsS, scope, typesS, i + 1)
  {
  }

  /** Line `i` of `find_known_libc_functions` creates its builtin records after
      those of the earlier lines. */
  lemma MergeBuiltinsStep(symbolsS: seq<string>, typesS: seq<Ty>, entitiesS: seq<Entity>, scope: map<Symbol, EntityRef>,
                          i: nat, symbols0: seq<string>, types0: seq<Ty>, entities0: seq<Entity>, entities: seq<Entity>,
                          skip: Ty -> Ty, compatible: (Ty, Ty) -> bool)
    requires WellFormed(symbolsS, typesS, entitiesS, scope) && WellFormed(symbols0, types0, entities0, scope)
    requires i < |ComplexMerges|
    requires |entities0| == |entitiesS| + MergeBuiltins(symbolsS, typesS, entitiesS, scope, i, skip, compatible)
    requires |entities| == |entities0| + LineBuiltins(symbols0, types0, entities0, scope, ComplexMerges[i], skip, compatible)
    requires LineBuiltins(symbols0, types0, entities0, scope, ComplexMerges[i], skip, compatible)
          == LineBuiltins(symbolsS, typesS, entitiesS, scope, ComplexMerges[i], skip, compatible)
    ensures |entities| == |entitiesS| + MergeBuiltins(symbolsS, typesS, entitiesS, scope, i + 1, skip, compatible)
  {
  }

  /** Loop step of `find_known_libc_functions` for the exact warnings and the
      frame. */
  lemma LinesMergedStep(symbolsS: seq<string>, typesS: seq<Ty>, entitiesS: seq<Entity>, warningsS: seq<Warning>,
                        scope: map<Symbol, EntityRef>, i: nat,
                        symbols0: seq<string>, types0: seq<Ty>, entities0: seq<Entity>, warnings0: seq<Warning>,
                        symbols: seq<string>, types: seq<Ty>, entities: seq<Entity>, warnings: seq<Warning>,
                        skip: Ty -> Ty, compatible: (Ty, Ty) -> bool)
    requires WellFormed(symbolsS, typesS, entitiesS, scope) && WellFormed(symbols0, types0, entities0, scope)
    requires i < |ComplexMerges|
    requires LinesMerged(symbolsS, typesS, entitiesS, warningsS, scope, i, symbols0, types0, entities0, warnings0, skip, compatible)
    requires LineMerged(symbols0, types0, entities0, warnings0, scope, ComplexMerges[i],
                        symbols, types, entities, warnings, skip, compatible)
    ensures LinesMerged(symbolsS, typesS, entitiesS, warningsS, scope, i + 1, symbols, types, entities, warnings, skip, compatible)
  {
    MergeWarningsStep(symbolsS, typesS, entitiesS, warningsS, scope, i, symbols0, types0, entities0, warnings0,
                      warnings, skip, compatible);
    MergedDeclarationsStep(symbolsS, entitiesS, scope, i, symbols0, entities0, entities);
    LinesGrownStep(symbolsS, typesS, entitiesS, scope, i, symbols0, types0, entities0,
                   symbols, types, entities, warnings0, warnings, skip, compatible);
  }

  /** The state of `find_known_libc_functions` after its first `n` lines,
      against the session `symbolsS`, `typesS`, `entitiesS`, `warningsS` before
      the first line. */
  ghost predicate MergeLoopDone(symbolsS: seq<string>, typesS: seq<Ty>, entitiesS: seq<Entity>, warningsS: seq<Warning>,
                                scope: map<Symbol, EntityRef>, n: nat,
                                symbols: seq<string>, types: seq<Ty>, entities: seq<Entity>, warnings: seq<Warning>,
                                skip: Ty -> Ty, compatible: (Ty, Ty) -> bool)
    requires WellFormed(symbolsS, typesS, entitiesS, scope) && n <= |ComplexMerges|
  {
    && warningsS <= warnings
    && MergesDone(n, scope, entitiesS, symbols, types, entities, warnings, skip, compatible)
    && ChangedOnlyAmong(entitiesS, entities, symbols, MergeNamesBelow(n))
    && LinesMerged(symbolsS, typesS, entitiesS, warningsS, scope, n, symbols, types, entities, warnings, skip, compatible)
  }

  /** One line of `find_known_libc_functions` keeps `MergeLoopDone` for one more line. */
  lemma MergeLoopStep(symbolsS: seq<string>, typesS: seq<Ty>, entitiesS: seq<Entity>, warningsS: seq<Warning>,
                      scope: map<Symbol, EntityRef>, i: nat,
                      symbols0: seq<string>, types0: seq<Ty>, entities0: seq<Entity>, warnings0: seq<Warning>,
                      symbols: seq<string>, types: seq<Ty>, entities: seq<Entity>, warnings: seq<Warning>,
                      skip: Ty -> Ty, compatible: (Ty, Ty) -> bool)
    requires WellFormed(symbolsS, typesS, entitiesS, scope) && WellFormed(symbols0, types0, entities0, scope)
    requires WellFormed(symbols, types, entities, scope)
    requires i < |ComplexMerges|
    requires MergeLoopDone(symbolsS, typesS, entitiesS, warningsS, scope, i, symbols0, types0, entities0, warnings0, skip, compatible)
    requires LineMerged(symbols0, types0, entities0, warnings0, scope, ComplexMerges[i],
                        symbols, types, entities, warnings, skip, compatible)
    requires ChangesOnlyNamed(entities0, entities, symbols, ComplexMerges[i].name)
    requires MergeEntryDone(ComplexMerges[i], scope, entities0, symbols, types, entities, warnings, skip, compatible)
    ensures MergeLoopDone(symbolsS, typesS, entitiesS, warningsS, scope, i + 1, symbols, types, entities, warnings, skip, compatible)
  {
    MergesDoneStep(i, scope, entitiesS, symbols0, types0, entities0, warnings0,
                   symbols, types, entities, warnings, skip, compatible);
    LinesMergedStep(symbolsS, typesS, entitiesS, warningsS, scope, i,
                    symbols0, types0, entities0, warnings0, symbols, types, entities, warnings, skip, compatible);
  }

  /** The invariant of registering a table after its first `n` lines, against
      the session `symbolsS`, `typesS`, `entitiesS`, `scopeS` before the first
      line: the texts and signatures of those lines are interned in order, each
      line has its own new entity recorded under its text, and the scope keeps
      its earlier bindings except where a line rebinds them. */
  ghost predicate RegisteredBelow(table: seq<Entry>, texts: seq<string>, n: nat,
                                  symbolsS: seq<string>, typesS: seq<Ty>, entitiesS: seq<Entity>, scopeS: map<Symbol, EntityRef>,
                                  symbols: seq<string>, types: seq<Ty>, entities: seq<Entity>, scope: map<Symbol, EntityRef>)
  {
    && n <= |table|
    && symbolsS <= symbols && |symbols| <= |symbolsS| + 2 * n
    && typesS <= types && |types| <= |typesS| + n
    && symbols == InternAll(symbolsS, TableSpellings(table[..n]))
    && types == InternAll(typesS, Sigs(table[..n]))
    && |entities| == |entitiesS| + n && entitiesS <= entities
    && AllRecorded(table, texts, n, |entitiesS|, symbols, types, entities, scope)
    && ScopeKept(scopeS, scope, |entitiesS|)
  }

  /** Registering line `i` keeps the invariant of registering a table. */
  lemma RegisteredBelowStep(table: seq<Entry>, texts: seq<string>, i: nat,
                            symbolsS: seq<string>, typesS: seq<Ty>, entitiesS: seq<Entity>, scopeS: map<Symbol, EntityRef>,
                            symbols0: seq<string>, types0: seq<Ty>, entities0: seq<Entity>, scope0: map<Symbol, EntityRef>,
                            symbols: seq<string>, types: seq<Ty>, entities: seq<Entity>, scope: map<Symbol, EntityRef>)
    requires i < |table| && texts == Texts(table) && Distinct(texts)
    requires RegisteredBelow(table, texts, i, symbolsS, typesS, entitiesS, scopeS, symbols0, types0, entities0, scope0)
    requires symbols == InternAll(symbols0, Spellings(table[i])) && |symbols| <= |symbols0| + |Spellings(table[i])|
    requires symbols0 <= symbols && types0 <= types && types == Interned(types0, table[i].sig)
    requires |entities| == |entities0| + 1 && entities0 <= entities
    requires RecordedAt(symbols, types, entities, scope, table[i], |entities0|)
    requires scope == scope0[entities[|entities0|].symbol.value := |entities0|]
    ensures RegisteredBelow(table, texts, i + 1, symbolsS, typesS, entitiesS, scopeS, symbols, types, entities, scope)
  {
    var base := |entitiesS|;
    RegisteredStep(table, texts, i, base, symbols0, types0, entities0, scope0, symbols, types, entities, scope);
    ScopeKeptStep(scopeS, scope0, base, entities[base + i].symbol.value, base + i);
    InternedStep(table, i, symbolsS, typesS, symbols0, types0, symbols, types);
  }

  class Session {
    /** The symbol table: the text of each interned symbol. */
    var symbols: seq<string>
    /** The canonical type instances. */
    var types: seq<Ty>
    /** Every entity allocated so far. */
    var entities: seq<Entity>
    /** The global scope of the normal namespace. */
    var scope: map<Symbol, EntityRef>
    /** The diagnostics emitted, in order. */
    var warnings: seq<Warning>

    ghost predicate Valid()
      reads this
    {
      WellFormed(symbols, types, entities, scope)
    }

    /** A fresh session. */
    constructor ()
      ensures Valid()
      ensures symbols == [] && types == [] && entities == [] && scope == map[] && warnings == []
    {
      symbols, types, entities, scope, warnings := [], [], [], map[], [];
    }

    // ---- Symbol interner --------------------------------------------------

    /** Finds the symbol already interned for `text`, if any. */
    method LookupSymbol(text: string) returns (r: Option<Symbol>)
      ensures r == IndexOf(symbols, text)
      ensures r.Some? ==> r.value < |symbols| && symbols[r.value] == text
      ensures r.None? <==> text !in symbols
    {
      var i := 0;
      while i < |symbols|
        invariant 0 <= i <= |symbols|
        invariant forall j :: 0 <= j < i ==> symbols[j] != text
      {
        if symbols[i] == text {
          return Some(i);
        }
        i := i + 1;
      }
      return None;
    }

    /** `symbol_table_insert`: the symbol for `text`, interning it on first use. */
    method SymbolTableInsert(text: string) returns (sym: Symbol)
      requires Valid()
      modifies this`symbols
      ensures Valid()
      ensures sym < |symbols| && symbols[sym] == text
      ensures symbols == Interned(old(symbols), text) && IndexOf(symbols, text) == Some(sym)
      ensures text in old(symbols) ==> sym < |old(symbols)|
      ensures text !in old(symbols) ==> sym == |old(symbols)|
    {
      var found := LookupSymbol(text);
      if found.Some? {
        sym := found.value;
      } else {
        InternKeepsWellFormed(symbols, types, entities, scope, text);
        IndexOfExtended(symbols, symbols + [text], text);
        sym := |symbols|;
        symbols := symbols + [text];
      }
    }

    /** Interning is idempotent: interning the same text twice yields the same
        symbol, and the second request leaves the symbol table as it was. */
    method InternTwice(text: string) returns (first: Symbol, second: Symbol)
      requires Valid()
      modifies this`symbols
      ensures Valid()
      ensures first == second && first < |symbols| && symbols[first] == text
      ensures symbols == (if text in old(symbols) then old(symbols) else old(symbols) + [text])
    {
      first := SymbolTableInsert(text);
      second := SymbolTableInsert(text);
      StoresCanonical(symbols, types, entities, scope, first, second);
    }

    /** `finalize_symbol_string`: interns the text built in the scratch buffer;
        `released` says the scratch copy was freed, which happens exactly when the
        text was interned already. */
    method FinalizeSymbolString(scratch: string) returns (sym: Symbol, released: bool)
      requires Valid()
      modifies this`symbols
      ensures Valid()
      ensures sym < |symbols| && symbols[sym] == scratch
      ensures symbols == Interned(old(symbols), scratch)
      ensures released <==> scratch in old(symbols)
    {
      var n := |symbols|;
      sym := SymbolTableInsert(scratch);
      released := sym < n;
    }

    // ---- Type store -------------------------------------------------------

    /** Finds the canonical instance structurally equal to `t`, if any. */
    method FindType(t: Ty) returns (r: Option<TypeRef>)
      ensures r == IndexOf(types, t)
      ensures r.Some? ==> r.value < |types| && types[r.value] == t
      ensures r.None? <==> t !in types
    {
      var i := 0;
      while i < |types|
        invariant 0 <= i <= |types|
        invariant forall j :: 0 <= j < i ==> types[j] != t
      {
        if types[i] == t {
          return Some(i);
        }
        i := i + 1;
      }
      return None;
    }

    /** `identify_new_type`: the canonical instance of `t`; a descriptor equal to
        an existing instance is discarded in favour of it. */
    method IdentifyNewType(t: Ty) returns (r: TypeRef)
      requires Valid()
      modifies this`types
      ensures Valid()
      ensures r < |types| && types[r] == t
      ensures types == Interned(old(types), t) && IndexOf(types, t) == Some(r)
      ensures t !in old(types) ==> r == |old(types)|
    {
      var found := FindType(t);
      if found.Some? {
        r := found.value;
      } else {
        AddTypeKeepsWellFormed(symbols, types, entities, scope, t);
        IndexOfExtended(types, types + [t], t);
        r := |types|;
        types := types + [t];
      }
    }

    /** `add_type_modifier`: copy-on-write addition of modifiers. When the function
        type behind `orig` already has them, `orig` itself is returned; otherwise
        the result is the canonical instance of the copy with the union of the
        modifier sets. No existing instance is changed. */
    method AddTypeModifier(orig: TypeRef, m: DeclModifiers, skip: Ty -> Ty) returns (r: TypeRef)
      requires Valid() && orig < |types| && skip(types[orig]).FunctionTy?
      modifies this`types
      ensures Valid()
      ensures types == Interned(old(types), AddModifiers(old(types)[orig], m, skip))
      ensures r < |types| && types[r] == AddModifiers(old(types)[orig], m, skip)
      ensures m <= skip(old(types)[orig]).modifiers ==> r == orig && types == old(types)
    {
      var f := skip(types[orig]);
      if m <= f.modifiers {
        return orig;
      }
      r := IdentifyNewType(f.(modifiers := f.modifiers + m));
    }

    // ---- ABI attribute inference ------------------------------------------

    /** `adapt_special_functions`: a function whose name, stripped of one
        underscore convention, is a returns-twice or no-return entry point gets
        that modifier added to its type; every other function is left alone. */
    method AdaptSpecialFunctions(f: EntityRef, skip: Ty -> Ty)
      requires Valid() && f < |entities| && entities[f].kind == FunctionEntity
      requires SpecialAttributeOf(f).Some? ==> skip(types[entities[f].typ]).FunctionTy?
      modifies this`types, this`entities
      ensures Valid()
      ensures old(types) <= types
      ensures var before := old(entities)[f];
              var a := old(SpecialAttributeOf(f));
              if a.None? then entities == old(entities) && types == old(types)
              else
                && |entities| == |old(entities)|
                && entities == old(entities)[f := before.(typ := entities[f].typ)]
                && types == Interned(old(types), AddModifiers(old(types)[before.typ], {a.value}, skip))
                && types[entities[f].typ] == AddModifiers(old(types)[before.typ], {a.value}, skip)
                && (a.value in skip(old(types)[before.typ]).modifiers ==> entities == old(entities) && types == old(types))
    {
      var sym := entities[f].symbol;
      if sym.None? {
        return;
      }
      var name := symbols[sym.value];
      var a := SpecialModifier(NormalizeName(name));
      if a.Some? {
        var t := AddTypeModifier(entities[f].typ, {a.value}, skip);
        UpdateKeepsWellFormed(symbols, types, entities, scope, f, entities[f].(typ := t));
        entities := entities[f := entities[f].(typ := t)];
      }
    }

    /** The modifier `adapt_special_functions` adds to function `f`, by its name. */
    ghost function SpecialAttributeOf(f: EntityRef): Option<DeclModifier>
      reads this
      requires Valid() && f < |entities|
    {
      var sym := entities[f].symbol;
      if sym.None? then None else SpecialAttribute(symbols[sym.value])
    }

    // ---- Catalog construction ---------------------------------------------

    /** `create_builtin_function`: allocates the builtin entity, not yet recorded. */
    method CreateBuiltinFunction(kind: BuiltinKind, symbol: Option<Symbol>, t: TypeRef) returns (e: EntityRef)
      requires Valid() && (symbol.Some? ==> symbol.value < |symbols|) && t < |types|
      modifies this`entities
      ensures Valid()
      ensures e == |old(entities)| && entities == old(entities) + [BuiltinFunction(kind, symbol, t)]
    {
      AllocateKeepsWellFormed(symbols, types, entities, scope, BuiltinFunction(kind, symbol, t));
      e := |entities|;
      entities := entities + [BuiltinFunction(kind, symbol, t)];
    }

    /** `record_builtin_function`: allocates the builtin entity and records it in
        the global scope under `symbol`. */
    method RecordBuiltinFunction(kind: BuiltinKind, symbol: Symbol, t: TypeRef) returns (e: EntityRef)
      requires Valid() && symbol < |symbols| && t < |types|
      modifies this`entities, this`scope
      ensures Valid()
      ensures e == |old(entities)| && entities == old(entities) + [BuiltinFunction(kind, Some(symbol), t)]
      ensures scope == old(scope)[symbol := e]
    {
      e := CreateBuiltinFunction(kind, Some(symbol), t);
      BindKeepsWellFormed(symbols, types, entities, scope, symbol, e);
      scope := scope[symbol := e];
    }

    /** `create_gnu_builtin`: `__builtin_<name>` tagged `kind`. */
    method CreateGnuBuiltin(kind: BuiltinKind, name: string, t: TypeRef) returns (e: EntityRef)
      requires Valid() && t < |types|
      modifies this`symbols, this`entities, this`scope
      ensures Valid() && symbols == Interned(old(symbols), "__builtin_" + name)
      ensures e == |old(entities)| && |entities| == e + 1 && old(entities) <= entities
      ensures Registered(symbols, entities, scope, e, "__builtin_" + name, kind, NoExtra, false, None, t)
      ensures scope == old(scope)[entities[e].symbol.value := e]
    {
      var symbol, _ := FinalizeSymbolString("__builtin_" + name);
      e := RecordBuiltinFunction(kind, symbol, t);
    }

    /** `create_gnu_builtin_firm`: `__builtin_<name>` tagged `BUILTIN_FIRM` with
        the backend kind `irKind`. */
    method CreateGnuBuiltinFirm(irKind: IrBuiltinKind, name: string, t: TypeRef) returns (e: EntityRef)
      requires Valid() && t < |types|
      modifies this`symbols, this`entities, this`scope
      ensures Valid() && symbols == Interned(old(symbols), "__builtin_" + name)
      ensures e == |old(entities)| && |entities| == e + 1 && old(entities) <= entities
      ensures Registered(symbols, entities, scope, e, "__builtin_" + name, BuiltinFirm, FirmKind(irKind), false, None, t)
      ensures scope == old(scope)[entities[e].symbol.value := e]
    {
      var symbol, _ := FinalizeSymbolString("__builtin_" + name);
      e := RecordBuiltinFunction(BuiltinFirm, symbol, t);
      UpdateKeepsWellFormed(symbols, types, entities, scope, e, entities[e].(b := FirmKind(irKind)));
      entities := entities[e := entities[e].(b := FirmKind(irKind))];
    }

    /** `create_builtin_firm` and `create_intrinsic_firm` (the same code): `name`
        verbatim, tagged `BUILTIN_FIRM` with the backend kind `irKind`. */
    method CreateBuiltinFirm(irKind: IrBuiltinKind, name: string, t: TypeRef) returns (e: EntityRef)
      requires Valid() && t < |types|
      modifies this`symbols, this`entities, this`scope
      ensures Valid() && symbols == Interned(old(symbols), name)
      ensures e == |old(entities)| && |entities| == e + 1 && old(entities) <= entities
      ensures Registered(symbols, entities, scope, e, name, BuiltinFirm, FirmKind(irKind), false, None, t)
      ensures scope == old(scope)[entities[e].symbol.value := e]
    {
      var symbol := SymbolTableInsert(name);
      e := RecordBuiltinFunction(BuiltinFirm, symbol, t);
      UpdateKeepsWellFormed(symbols, types, entities, scope, e, entities[e].(b := FirmKind(irKind)));
      entities := entities[e := entities[e].(b := FirmKind(irKind))];
    }

    /** `create_gnu_builtin_libc`: `__builtin_<name>` tagged `BUILTIN_LIBC`,
        marked as living in the library under the actual name `name`. */
    method CreateGnuBuiltinLibc(name: string, t: TypeRef) returns (e: EntityRef)
      requires Valid() && t < |types|
      modifies this`symbols, this`entities, this`scope
      ensures Valid() && symbols == Interned(Interned(old(symbols), "__builtin_" + name), name)
      ensures e == |old(entities)| && |entities| == e + 1 && old(entities) <= entities
      ensures Registered(symbols, entities, scope, e, "__builtin_" + name, BuiltinLibc, NoExtra, true, Some(name), t)
      ensures scope == old(scope)[entities[e].symbol.value := e]
    {
      var symbol, _ := FinalizeSymbolString("__builtin_" + name);
      e := RecordBuiltinFunction(BuiltinLibc, symbol, t);
      var actual := SymbolTableInsert(name);
      var updated := entities[e].(builtinInLib := true, actualName := Some(actual));
      UpdateKeepsWellFormed(symbols, types, entities, scope, e, updated);
      entities := entities[e := updated];
    }

    /** `create_gnu_builtin_chk`: `__builtin___<name>_chk` tagged
        `BUILTIN_LIBC_CHECK`, with actual name `name` and the position of the
        destination-size argument. */
    method CreateGnuBuiltinChk(name: string, chkArgPos: nat, t: TypeRef) returns (e: EntityRef)
      requires Valid() && t < |types|
      modifies this`symbols, this`entities, this`scope
      ensures Valid() && symbols == Interned(Interned(old(symbols), "__builtin___" + name + "_chk"), name)
      ensures e == |old(entities)| && |entities| == e + 1 && old(entities) <= entities
      ensures Registered(symbols, entities, scope, e, "__builtin___" + name + "_chk", BuiltinLibcCheck,
                         ChkArgPos(chkArgPos), true, Some(name), t)
      ensures scope == old(scope)[entities[e].symbol.value := e]
    {
      var symbol, _ := FinalizeSymbolString("__builtin___" + name + "_chk");
      e := RecordBuiltinFunction(BuiltinLibcCheck, symbol, t);
      var actual := SymbolTableInsert(name);
      var updated := entities[e].(builtinInLib := true, actualName := Some(actual), b := ChkArgPos(chkArgPos));
      UpdateKeepsWellFormed(symbols, types, entities, scope, e, updated);
      entities := entities[e := updated];
    }

    /** `create_intrinsic`: `name` verbatim, tagged `kind`. */
    method CreateIntrinsic(kind: BuiltinKind, name: string, t: TypeRef) returns (e: EntityRef)
      requires Valid() && t < |types|
      modifies this`symbols, this`entities, this`scope
      ensures Valid() && symbols == Interned(old(symbols), name)
      ensures e == |old(entities)| && |entities| == e + 1 && old(entities) <= entities
      ensures Registered(symbols, entities, scope, e, name, kind, NoExtra, false, None, t)
      ensures scope == old(scope)[entities[e].symbol.value := e]
    {
      var symbol := SymbolTableInsert(name);
      e := RecordBuiltinFunction(kind, symbol, t);
    }

    /** The creation call of one catalog line, given the canonical type `t` of
        its signature: the creation function of the line's shape. */
    method CreateEntry(entry: Entry, t: TypeRef) returns (e: EntityRef)
      requires Valid() && t < |types|
      modifies this`symbols, this`entities, this`scope
      ensures Valid() && symbols == InternAll(old(symbols), Spellings(entry))
      ensures e == |old(entities)| && |entities| == e + 1 && old(entities) <= entities
      ensures Registered(symbols, entities, scope, e, SymbolText(entry), Kind(entry), Extra(entry),
                         InLib(entry), ActualName(entry), t)
      ensures scope == old(scope)[entities[e].symbol.value := e]
    {
      match entry
      case GnuEntry(kind, name, _) =>
        e := CreateGnuBuiltin(kind, name, t);
        InternAllSingle(old(symbols), "__builtin_" + name);
      case GnuFirmEntry(irKind, name, _) =>
        e := CreateGnuBuiltinFirm(irKind, name, t);
        InternAllSingle(old(symbols), "__builtin_" + name);
      case FirmEntry(irKind, name, _) =>
        e := CreateBuiltinFirm(irKind, name, t);
        InternAllSingle(old(symbols), name);
      case LibcEntry(name, _) =>
        e := CreateGnuBuiltinLibc(name, t);
        InternAllPair(old(symbols), "__builtin_" + name, name);
      case ChkEntry(name, pos, _) =>
        e := CreateGnuBuiltinChk(name, pos, t);
        InternAllPair(old(symbols), "__builtin___" + name + "_chk", name);
      case IntrinsicEntry(kind, name, _) =>
        e := CreateIntrinsic(kind, name, t);
        InternAllSingle(old(symbols), name);
    }

    /** One catalog line: builds the canonical type of its signature, then makes
        the creation call of its shape. */
    method RegisterEntry(entry: Entry) returns (e: EntityRef)
      requires Valid()
      modifies this`symbols, this`types, this`entities, this`scope
      ensures Valid() && old(symbols) <= symbols && old(types) <= types
      ensures symbols == InternAll(old(symbols), Spellings(entry)) && |symbols| <= |old(symbols)| + |Spellings(entry)|
      ensures types == Interned(old(types), entry.sig)
      ensures |types| == |old(types)| + (if entry.sig in old(types) then 0 else 1)
      ensures e == |old(entities)| && |entities| == e + 1 && old(entities) <= entities
      ensures RecordedAt(symbols, types, entities, scope, entry, e)
      ensures scope == old(scope)[entities[e].symbol.value := e]
    {
      var t := IdentifyNewType(entry.sig);
      e := CreateEntry(entry, t);
      InternAllContents(old(symbols), Spellings(entry));
    }

    /** Registers line `i` of `table`, as a step of the loop over it on a
        session that started as `symbolsS`, `typesS`, `entitiesS`, `scopeS`. */
    method RegisterLine(table: seq<Entry>, ghost texts: seq<string>, i: nat,
                        ghost symbolsS: seq<string>, ghost typesS: seq<Ty>, ghost entitiesS: seq<Entity>,
                        ghost scopeS: map<Symbol, EntityRef>)
      requires Valid() && i < |table| && texts == Texts(table) && Distinct(texts)
      requires RegisteredBelow(table, texts, i, symbolsS, typesS, entitiesS, scopeS, symbols, types, entities, scope)
      modifies this`symbols, this`types, this`entities, this`scope
      ensures Valid()
      ensures RegisteredBelow(table, texts, i + 1, symbolsS, typesS, entitiesS, scopeS, symbols, types, entities, scope)
    {
      ghost var symbols0, types0, entities0, scope0 := symbols, types, entities, scope;
      var e := RegisterEntry(table[i]);
      RegisteredBelowStep(table, texts, i, symbolsS, typesS, entitiesS, scopeS,
                          symbols0, types0, entities0, scope0, symbols, types, entities, scope);
    }

    /** Registers every line of `table`, in order. Each line gets one new entity,
        recorded under its symbol; other bindings of the scope are kept, except
        that a builtin symbol is rebound to its new entity. */
    method RegisterAll(table: seq<Entry>)
      requires Valid() && Distinct(Texts(table))
      modifies this`symbols, this`types, this`entities, this`scope
      ensures Valid()
      ensures old(symbols) <= symbols && |symbols| <= |old(symbols)| + 2 * |table|
      ensures old(types) <= types && |types| <= |old(types)| + |table|
      ensures symbols == InternAll(old(symbols), TableSpellings(table))
      ensures types == InternAll(old(types), Sigs(table))
      ensures |entities| == |old(entities)| + |table| && old(entities) <= entities
      ensures AllRecorded(table, Texts(table), |table|, |old(entities)|, symbols, types, entities, scope)
      ensures ScopeKept(old(scope), scope, |old(entities)|)
      ensures RecordsKept(old(symbols), old(types), old(entities), old(scope), symbols, types, entities, scope, Texts(table))
    {
      ghost var texts := Texts(table);
      var i := 0;
      while i < |table|
        invariant 0 <= i <= |table|
        invariant Valid()
        invariant RegisteredBelow(table, texts, i, old(symbols), old(types), old(entities), old(scope),
                                  symbols, types, entities, scope)
      {
        RegisterLine(table, texts, i, old(symbols), old(types), old(entities), old(scope));
        i := i + 1;
      }
      assert table[..i] == table;
      RecordsKeptAfter(table, texts, |old(entities)|, old(symbols), old(types), old(entities), old(scope),
                       symbols, types, entities, scope);
    }

    /** `create_gnu_builtins`: registers the whole gnu catalog. */
    method CreateGnuBuiltins()
      requires Valid()
      modifies this`symbols, this`types, this`entities, this`scope
      ensures Valid()
      ensures old(symbols) <= symbols && |symbols| <= |old(symbols)| + 2 * |GnuBuiltins|
      ensures old(types) <= types && |types| <= |old(types)| + |GnuBuiltins|
      ensures symbols == InternAll(old(symbols), TableSpellings(GnuBuiltins))
      ensures types == InternAll(old(types), Sigs(GnuBuiltins))
      ensures |entities| == |old(entities)| + |GnuBuiltins| && old(entities) <= entities
      ensures AllRecorded(GnuBuiltins, Texts(GnuBuiltins), |GnuBuiltins|, |old(entities)|, symbols, types, entities, scope)
      ensures ScopeKept(old(scope), scope, |old(entities)|)
      ensures RecordsKept(old(symbols), old(types), old(entities), old(scope), symbols, types, entities, scope,
                          Texts(GnuBuiltins))
    {
      GnuBuiltinsDistinct();
      TextsDistinct(GnuBuiltins);
      RegisterAll(GnuBuiltins);
    }

    /** `create_microsoft_intrinsics`: registers the Microsoft intrinsics. */
    method CreateMicrosoftIntrinsics()
      requires Valid()
      modifies this`symbols, this`types, this`entities, this`scope
      ensures Valid()
      ensures old(symbols) <= symbols && |symbols| <= |old(symbols)| + 2 * |MicrosoftIntrinsics|
      ensures old(types) <= types && |types| <= |old(types)| + |MicrosoftIntrinsics|
      ensures symbols == InternAll(old(symbols), TableSpellings(MicrosoftIntrinsics))
      ensures types == InternAll(old(types), Sigs(MicrosoftIntrinsics))
      ensures |entities| == |old(entities)| + |MicrosoftIntrinsics| && old(entities) <= entities
      ensures AllRecorded(MicrosoftIntrinsics, Texts(MicrosoftIntrinsics), |MicrosoftIntrinsics|, |old(entities)|, symbols, types, entities, scope)
      ensures ScopeKept(old(scope), scope, |old(entities)|)
      ensures RecordsKept(old(symbols), old(types), old(entities), old(scope), symbols, types, entities, scope,
                          Texts(MicrosoftIntrinsics))
    {
      MicrosoftIntrinsicsDistinct();
      TextsDistinct(MicrosoftIntrinsics);
      RegisterAll(MicrosoftIntrinsics);
    }

    // ---- Merging library declarations -------------------------------------

    /** `find_existing_entity`: interns `name` and looks its symbol up in the
        global scope. A name interned only now has no declaration. */
    method FindExistingEntity(name: string) returns (r: Option<EntityRef>)
      requires Valid()
      modifies this`symbols
      ensures Valid()
      ensures symbols == Interned(old(symbols), name)
      ensures r == Declaration(symbols, scope, name) == Declaration(old(symbols), scope, name)
      ensures name in old(symbols) ==> symbols == old(symbols)
      ensures name !in old(symbols) ==> symbols == old(symbols) + [name] && r == None
      ensures name in symbols
      ensures forall k :: 0 <= k < |symbols| && symbols[k] == name ==> r == (if k in scope then Some(scope[k]) else None)
    {
      var sym := SymbolTableInsert(name);
      DeclarationStable(old(symbols), symbols, scope, name);
      if sym in scope {
        r := Some(scope[sym]);
      } else {
        r := None;
      }
    }

    /** `merge_builtin`: a declaration that is not a function, or whose type is
        incompatible with the standard's `t`, only draws a warning. Otherwise a
        builtin record with the declaration's symbol and type `t`, living in the
        library, is created and merged into the declaration. */
    method MergeBuiltin(def: EntityRef, kind: BuiltinKind, t: TypeRef, skip: Ty -> Ty, compatible: (Ty, Ty) -> bool)
      requires Valid() && def < |entities| && t < |types|
      modifies this`entities, this`warnings
      ensures Valid()
      ensures Merged(old(entities), old(warnings), def, kind, t, types, entities, warnings, skip, compatible)
    {
      var d := entities[def];
      if d.kind != FunctionEntity {
        warnings := warnings + [MustBeFunction(def)];
        return;
      }
      if !compatible(skip(types[d.typ]), types[t]) {
        warnings := warnings + [IncompatibleDeclaration(def, types[d.typ], types[t])];
        return;
      }
      var builtin := CreateBuiltinFunction(kind, d.symbol, t);
      UpdateKeepsWellFormed(symbols, types, entities, scope, builtin, entities[builtin].(builtinInLib := true));
      entities := entities[builtin := entities[builtin].(builtinInLib := true)];
      UpdateKeepsWellFormed(symbols, types, entities, scope, def, d.(mergedBuiltin := Some(builtin)));
      entities := entities[def := d.(mergedBuiltin := Some(builtin))];
    }

    /** One line of `find_known_libc_functions`: looks up `me.name` and, if it is
        declared, builds the standard's type and merges the builtin into the
        declaration. */
    method MergeKnownFunction(me: MergeEntry, skip: Ty -> Ty, compatible: (Ty, Ty) -> bool)
      requires Valid()
      modifies this`symbols, this`types, this`entities, this`warnings
      ensures Valid()
      ensures LineMerged(old(symbols), old(types), old(entities), old(warnings), scope, me,
                         symbols, types, entities, warnings, skip, compatible)
      ensures ChangesOnlyNamed(old(entities), entities, symbols, me.name)
      ensures MergeEntryDone(me, scope, old(entities), symbols, types, entities, warnings, skip, compatible)
    {
      ghost var symbols0 := symbols;
      var def := FindExistingEntity(me.name);
      if def.Some? {
        ghost var types0, entities0, warnings0 := types, entities, warnings;
        MergeDeclared(def.value, me, skip, compatible);
        DeclaredLineMerged(symbols0, types0, entities0, warnings0, scope, me, def.value,
                           symbols, types, entities, warnings, skip, compatible);
      } else {
        UndeclaredLineMerged(symbols0, types, entities, warnings, scope, me, symbols, skip, compatible);
      }
    }

    /** The call `m(def, kind, make_function_type(...))` of one line: builds the
        canonical instance of the standard's type and merges the builtin into
        the declaration `def`. */
    method MergeDeclared(def: EntityRef, me: MergeEntry, skip: Ty -> Ty, compatible: (Ty, Ty) -> bool)
      requires Valid() && def < |entities|
      modifies this`types, this`entities, this`warnings
      ensures Valid()
      ensures types == Interned(old(types), me.sig)
      ensures old(types) <= types && |types| == |old(types)| + (if me.sig in old(types) then 0 else 1)
      ensures me.sig in types
      ensures Merged(old(entities), old(warnings), def, me.kind, IndexOf(types, me.sig).value, types, entities, warnings,
                     skip, compatible)
    {
      var t := IdentifyNewType(me.sig);
      MergeBuiltin(def, me.kind, t, skip, compatible);
    }

    /** The three complex types `find_known_libc_functions` makes canonical
        before its lines, in this order. */
    method InternComplexTypes()
      requires Valid()
      modifies this`types
      ensures Valid()
      ensures types == WithComplexTypes(old(types))
    {
      var _ := IdentifyNewType(ComplexTy(Float));
      var _ := IdentifyNewType(ComplexTy(Double));
      var _ := IdentifyNewType(ComplexTy(LongDouble));
    }

    /** Line `i` of `find_known_libc_functions`, as one step over a
        session that started as `symbolsS`, `typesS`, `entitiesS`, `warningsS`. */
    method MergeLine(ghost symbolsS: seq<string>, ghost typesS: seq<Ty>, ghost entitiesS: seq<Entity>,
                     ghost warningsS: seq<Warning>, i: nat, skip: Ty -> Ty, compatible: (Ty, Ty) -> bool)
      requires Valid() && WellFormed(symbolsS, typesS, entitiesS, scope) && i < |ComplexMerges|
      requires MergeLoopDone(symbolsS, typesS, entitiesS, warningsS, scope, i, symbols, types, entities, warnings,
                             skip, compatible)
      modifies this`symbols, this`types, this`entities, this`warnings
      ensures Valid()
      ensures MergeLoopDone(symbolsS, typesS, entitiesS, warningsS, scope, i + 1, symbols, types, entities, warnings,
                            skip, compatible)
    {
      ghost var symbols0, types0, entities0, warnings0 := symbols, types, entities, warnings;
      MergeKnownFunction(ComplexMerges[i], skip, compatible);
      MergeLoopStep(symbolsS, typesS, entitiesS, warningsS, scope, i,
                    symbols0, types0, entities0, warnings0, symbols, types, entities, warnings, skip, compatible);
    }

    /** The lines `i` onwards of `find_known_libc_functions`, in table order, on
        a session that started as `symbolsS`, `typesS`, `entitiesS`,
        `warningsS` before line 0. */
    method MergeLines(ghost symbolsS: seq<string>, ghost typesS: seq<Ty>, ghost entitiesS: seq<Entity>,
                      ghost warningsS: seq<Warning>, i: nat, skip: Ty -> Ty, compatible: (Ty, Ty) -> bool)
      requires Valid() && WellFormed(symbolsS, typesS, entitiesS, scope) && i <= |ComplexMerges|
      requires MergeLoopDone(symbolsS, typesS, entitiesS, warningsS, scope, i, symbols, types, entities, warnings,
                             skip, compatible)
      modifies this`symbols, this`types, this`entities, this`warnings
      ensures Valid()
      ensures MergeLoopDone(symbolsS, typesS, entitiesS, warningsS, scope, |ComplexMerges|,
                            symbols, types, entities, warnings, skip, compatible)
      decreases |ComplexMerges| - i
    {
      if i < |ComplexMerges| {
        MergeLine(symbolsS, typesS, entitiesS, warningsS, i, skip, compatible);
        MergeLines(symbolsS, typesS, entitiesS, warningsS, i + 1, skip, compatible);
      }
    }

    /** `find_known_libc_functions`: outside freestanding mode and under C99,
        merges the standard's complex accessors into the user's declarations
        of them. Declarations of other names are left alone, and so is the
        scope. */
    method FindKnownLibcFunctions(dialect: Dialect, skip: Ty -> Ty, compatible: (Ty, Ty) -> bool)
      requires Valid()
      modifies this`symbols, this`types, this`entities, this`warnings
      ensures Valid()
      ensures dialect.freestanding || !dialect.c99 ==>
        symbols == old(symbols) && types == old(types) && entities == old(entities) && warnings == old(warnings)
      ensures !dialect.freestanding && dialect.c99 ==>
        && old(symbols) <= symbols && old(types) <= types && old(warnings) <= warnings
        && MergesDone(|ComplexMerges|, scope, old(entities), symbols, types, entities, warnings, skip, compatible)
        && ChangedOnlyAmong(old(entities), entities, symbols, ComplexMergeNames)
        && LinesMerged(old(symbols), old(types), old(entities), old(warnings), scope, |ComplexMerges|,
                       symbols, types, entities, warnings, skip, compatible)
    {
      if dialect.freestanding || !dialect.c99 {
        return;
      }
      InternComplexTypes();
      MergeLines(old(symbols), old(types), old(entities), old(warnings), 0, skip, compatible);
    }

  }

}
