/**
  The spelling heuristic of `adapt_special_functions`: a name is first stripped of
  one leading-underscore convention (`__builtin_`, `__x`, `__` or `_`), and the base
  name is then compared against the fixed list of libc entry points (taken from
  gcc's calls.c) that return twice or never return.
 */
module Names {
  import opened Wrappers
  import opened Types

  /** `prefix` is a prefix of `s` (the C helper `strstart`). */
  predicate StartsWith(s: string, prefix: string)
  {
    |prefix| <= |s| && s[..|prefix|] == prefix
  }

  /** The character the C code reads at position `i`: past the end of the text it
      reads the NUL terminator. */
  function CharAt(s: string, i: nat): char
  {
    if i < |s| then s[i] else '\0'
  }

  /** Strips one leading-underscore convention, checking each character the C code
      reads against the length of the name. */
  function NormalizeName(name: string): (base: string)
    ensures |base| <= |name| && base == name[|name| - |base|..]
    ensures |name| - |base| in {0, 1, 2, 3, 10}
    ensures StartsWith(name, "_") <==> |base| < |name|
  {
    if |name| > 0 && name[0] == '_' then
      if StartsWith(name[1..], "_builtin_") then name[10..]
      else if |name| > 2 && name[1] == '_' && name[2] == 'x' then name[3..]
      else if |name| > 1 && name[1] == '_' then name[2..]
      else name[1..]
    else name
  }

  /** A name that does not start with `_` is its own base name. */
  lemma NormalizeUnprefixed(name: string)
    requires !StartsWith(name, "_")
    ensures NormalizeName(name) == name
  {
  }

  /** `__builtin_` is dropped from any name that starts with it: exactly 10 characters. */
  lemma NormalizeBuiltinPrefix(b: string)
    ensures NormalizeName("__builtin_" + b) == b
  {
    var name := "__builtin_" + b;
    assert name[1..][..9] == "_builtin_";
    assert name[10..] == b;
  }

  /** `__x` is dropped from any name that starts with it: exactly 3 characters. */
  lemma NormalizeXPrefix(b: string)
    ensures NormalizeName("__x" + b) == b
  {
    var name := "__x" + b;
    assert name[1] == '_' && name[2] == 'x';
    assert !StartsWith(name[1..], "_builtin_") by {
      assert |name[1..]| >= 2 && name[1..][1] == 'x';
    }
    assert name[3..] == b;
  }

  /** `__` followed by anything other than `x` or `builtin_` loses exactly 2 characters. */
  lemma NormalizeDoubleUnderscore(b: string)
    requires !StartsWith(b, "x") && !StartsWith(b, "builtin_")
    ensures NormalizeName("__" + b) == b
  {
    var name := "__" + b;
    assert name[2..] == b;
    assert !StartsWith(name[1..], "_builtin_") by {
      assert name[1..] == "_" + b;
      if |b| >= 8 { assert name[1..][1..9] == b[..8]; }
    }
    if |b| > 0 {
      assert b[..1] == [b[0]];
      assert name[2] == b[0];
    }
  }

  /** `_` followed by anything other than a second `_` loses exactly 1 character. */
  lemma NormalizeSingleUnderscore(b: string)
    requires !StartsWith(b, "_")
    ensures NormalizeName("_" + b) == b
  {
    var name := "_" + b;
    assert name[1..] == b;
  }

  /** Only one convention is stripped: `__builtin__setjmp` keeps the `_` of `_setjmp`,
      and `___x` keeps `_x`. */
  lemma NormalizeStripsOnce()
    ensures NormalizeName("__builtin__setjmp") == "_setjmp"
    ensures NormalizeName("___x") == "_x"
  {
    NormalizeBuiltinPrefix("_setjmp");
    assert "__builtin_" + "_setjmp" == "__builtin__setjmp";
    assert !StartsWith("_x", "x") by { assert "_x"[..1] == "_"; }
    assert !StartsWith("_x", "builtin_");
    NormalizeDoubleUnderscore("_x");
    assert "__" + "_x" == "___x";
  }

  /** Names too short for any prefix: the C code reads only up to the terminator. */
  lemma NormalizeShortNames()
    ensures NormalizeName("") == ""
    ensures NormalizeName("_") == ""
    ensures NormalizeName("__") == ""
  {
    NormalizeSingleUnderscore("");
    NormalizeDoubleUnderscore("");
  }

  /** A prefix with nothing after it leaves the empty base name. */
  lemma NormalizeBarePrefixes()
    ensures NormalizeName("__x") == ""
    ensures NormalizeName("__builtin_") == ""
  {
    NormalizeXPrefix("");
    NormalizeBuiltinPrefix("");
  }

  /** The base names that make a function return twice. */
  const ReturnsTwiceNames: set<string> :=
    {"setjmp", "setjmp_syscall", "sigsetjmp", "savectx", "qsetjmp", "vfork", "getcontext"}

  /** The base names that make a function never return. */
  const NoReturnNames: set<string> := {"siglongjmp", "longjmp"}

  /** The classification of a base name, with the first-character dispatch of the C
      code; `None` means the function's type is left alone. */
  function SpecialModifier(base: string): (r: Option<DeclModifier>)
    ensures r.Some? ==> r.value == ReturnsTwice || r.value == NoReturn
  {
    if CharAt(base, 0) == 's' then
      if (CharAt(base, 1) == 'e' && (base == "setjmp" || base == "setjmp_syscall"))
         || (CharAt(base, 1) == 'i' && base == "sigsetjmp")
         || (CharAt(base, 1) == 'a' && base == "savectx")
      then Some(ReturnsTwice)
      else if CharAt(base, 1) == 'i' && base == "siglongjmp" then Some(NoReturn)
      else None
    else if (CharAt(base, 0) == 'q' && base == "qsetjmp")
         || (CharAt(base, 0) == 'v' && base == "vfork")
         || (CharAt(base, 0) == 'g' && base == "getcontext")
    then Some(ReturnsTwice)
    else if CharAt(base, 0) == 'l' && base == "longjmp" then Some(NoReturn)
    else None
  }

  /** The dispatch agrees with the two name lists, in both directions. */
  lemma SpecialModifierMatchesLists(base: string)
    ensures SpecialModifier(base) == Some(ReturnsTwice) <==> base in ReturnsTwiceNames
    ensures SpecialModifier(base) == Some(NoReturn) <==> base in NoReturnNames
    ensures SpecialModifier(base) == None <==> base !in ReturnsTwiceNames && base !in NoReturnNames
  {
  }

  /** The modifier `adapt_special_functions` adds for a function named `name`:
      returns-twice or no-return exactly when the base name is on that list, and
      nothing for any other name. */
  function SpecialAttribute(name: string): (r: Option<DeclModifier>)
    ensures r == Some(ReturnsTwice) <==> NormalizeName(name) in ReturnsTwiceNames
    ensures r == Some(NoReturn) <==> NormalizeName(name) in NoReturnNames
    ensures r == None <==> NormalizeName(name) !in ReturnsTwiceNames && NormalizeName(name) !in NoReturnNames
  {
    SpecialModifierMatchesLists(NormalizeName(name));
    SpecialModifier(NormalizeName(name))
  }

  /** Every spelling convention classifies like its base name, whatever the base. */
  lemma SpecialAttributeIgnoresConvention(b: string)
    ensures SpecialAttribute("__builtin_" + b) == SpecialModifier(b)
    ensures SpecialAttribute("__x" + b) == SpecialModifier(b)
    ensures !StartsWith(b, "x") && !StartsWith(b, "builtin_") ==> SpecialAttribute("__" + b) == SpecialModifier(b)
    ensures !StartsWith(b, "_") ==> SpecialAttribute("_" + b) == SpecialModifier(b)
  {
    NormalizeBuiltinPrefix(b);
    NormalizeXPrefix(b);
    if !StartsWith(b, "x") && !StartsWith(b, "builtin_") { NormalizeDoubleUnderscore(b); }
    if !StartsWith(b, "_") { NormalizeSingleUnderscore(b); }
  }

  /** `setjmp` returns twice under each of its spellings. */
  lemma SpecialAttributeSetjmpExamples()
    ensures SpecialAttribute("setjmp") == Some(ReturnsTwice)
    ensures SpecialAttribute("_setjmp") == Some(ReturnsTwice)
    ensures SpecialAttribute("__builtin_setjmp") == Some(ReturnsTwice)
  {
    assert SpecialModifier("setjmp") == Some(ReturnsTwice);
    NormalizeUnprefixed("setjmp");
    NormalizeSingleUnderscore("setjmp");
    NormalizeBuiltinPrefix("setjmp");
  }

  /** Other members of the returns-twice family. */
  lemma SpecialAttributeReturnsTwiceExamples()
    ensures SpecialAttribute("sigsetjmp") == Some(ReturnsTwice)
    ensures SpecialAttribute("__xvfork") == Some(ReturnsTwice)
  {
    assert SpecialModifier("sigsetjmp") == Some(ReturnsTwice);
    assert SpecialModifier("vfork") == Some(ReturnsTwice);
    NormalizeUnprefixed("sigsetjmp");
    NormalizeXPrefix("vfork");
  }

  /** `longjmp` never returns, with or without the `__` convention. */
  lemma SpecialAttributeNoReturnExamples()
    ensures SpecialAttribute("longjmp") == Some(NoReturn)
    ensures SpecialAttribute("__longjmp") == Some(NoReturn)
  {
    assert SpecialModifier("longjmp") == Some(NoReturn);
    NormalizeUnprefixed("longjmp");
    assert "longjmp"[..1] == "l";
    NormalizeDoubleUnderscore("longjmp");
  }

  /** Names outside both lists, and the bare prefixes, are left alone. */
  lemma SpecialAttributeOtherExamples()
    ensures SpecialAttribute("memcpy") == None
    ensures SpecialAttribute("_") == None
    ensures SpecialAttribute("__") == None
  {
    assert "memcpy"[..1] == "m";
    NormalizeUnprefixed("memcpy");
    NormalizeSingleUnderscore("");
    NormalizeDoubleUnderscore("");
  }

}
