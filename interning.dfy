/**
  Interning on values. A store is a sequence, the handle of a stored item is its
  index, and interning appends an item only when the store does not hold it yet.
  The symbol table and the type store of `Builtins.Session` both work this way.
 */
module Interning {
  import opened Wrappers

  /** The index of the first occurrence of `x` in `s`, if any: the handle a
      lookup by content returns. */
  function IndexOf<T(==)>(s: seq<T>, x: T): (r: Option<nat>)
    ensures r.Some? ==> r.value < |s| && s[r.value] == x
    ensures r.Some? ==> forall j :: 0 <= j < r.value ==> s[j] != x
    ensures r.None? <==> x !in s
  {
    if s == [] then None
    else if s[0] == x then Some(0)
    else
      assert s == [s[0]] + s[1..];
      match IndexOf(s[1..], x)
      case None => None
      case Some(i) => Some(i + 1)
  }

  /** The store after interning `x`: it holds `x`, keeps every earlier item at
      its handle, and has at most one item more. */
  function Interned<T(==)>(s: seq<T>, x: T): (r: seq<T>)
    ensures s <= r && x in r && |r| <= |s| + 1
    ensures forall y :: y in r ==> y in s || y == x
  {
    if x in s then s else s + [x]
  }

  /** The store after interning each of `xs`, in order. */
  function InternAll<T(==)>(s: seq<T>, xs: seq<T>): seq<T>
    decreases |xs|
  {
    if xs == [] then s else InternAll(Interned(s, xs[0]), xs[1..])
  }

  /** Interning a list keeps every earlier item at its handle, adds at most one
      item per element of the list, holds every element afterwards, and holds
      nothing else new. */
  lemma {:induction false} InternAllContents<T>(s: seq<T>, xs: seq<T>)
    ensures var r := InternAll(s, xs);
      && s <= r && |r| <= |s| + |xs|
      && (forall y :: y in xs ==> y in r)
      && (forall y :: y in r ==> y in s || y in xs)
    decreases |xs|
  {
    if xs != [] {
      assert xs == [xs[0]] + xs[1..];
      InternAllContents(Interned(s, xs[0]), xs[1..]);
    }
  }

  /** Interning a concatenation is interning its parts one after the other. */
  lemma {:induction false} InternAllConcat<T>(s: seq<T>, xs: seq<T>, ys: seq<T>)
    ensures InternAll(s, xs + ys) == InternAll(InternAll(s, xs), ys)
    decreases |xs|
  {
    if xs == [] {
      assert xs + ys == ys;
    } else {
      assert (xs + ys)[1..] == xs[1..] + ys;
      InternAllConcat(Interned(s, xs[0]), xs[1..], ys);
    }
  }

  /** Interning a one-item list is interning the item. */
  lemma InternAllSingle<T>(s: seq<T>, x: T)
    ensures InternAll(s, [x]) == Interned(s, x)
  {
    assert [x][1..] == [];
  }

  /** Interning a two-item list is interning the items one after the other. */
  lemma InternAllPair<T>(s: seq<T>, x: T, y: T)
    ensures InternAll(s, [x, y]) == Interned(Interned(s, x), y)
  {
    assert [x, y][1..] == [y];
    InternAllSingle(Interned(s, x), y);
  }

  /** Extending a store keeps the first handle of every item it held, and finds
      an item it did not hold only past its old end. */
  lemma IndexOfExtended<T>(s: seq<T>, s': seq<T>, x: T)
    requires s <= s'
    ensures x in s ==> IndexOf(s', x) == IndexOf(s, x)
    ensures x !in s && x in s' ==> |s| <= IndexOf(s', x).value
  {
    if x in s {
      var v, w := IndexOf(s, x).value, IndexOf(s', x).value;
      assert s'[v] == x;
      assert w < |s| ==> s[w] == s'[w];
    }
  }

}
