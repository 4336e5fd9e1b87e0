/** Sequence helpers: distinctness, element sets, removal and filtering. */
module Seqs {

  predicate Distinct<T(==)>(s: seq<T>) {
    forall i, j :: 0 <= i < j < |s| ==> s[i] != s[j]
  }

  function Elements<T>(s: seq<T>): set<T> {
    set x | x in s
  }

  /** `s` without any occurrence of `x`, order kept (what `Map.delete` does to iteration order). */
  function Remove<T(==)>(s: seq<T>, x: T): (r: seq<T>)
    ensures Elements(r) == Elements(s) - {x}
    ensures Distinct(s) ==> Distinct(r)
    ensures x !in s ==> r == s
    decreases |s|
  {
    if s == [] then []
    else if s[0] == x then Remove(s[1..], x)
    else
      var rest := Remove(s[1..], x);
      assert Elements(s) == {s[0]} + Elements(s[1..]);
      assert Elements([s[0]] + rest) == {s[0]} + Elements(rest);
      assert Distinct(s) ==> s[0] !in Elements(s[1..]);
      [s[0]] + rest
  }

  /** The elements of `s` satisfying `p`, order kept (`Array.prototype.filter`). */
  function Filter<T>(s: seq<T>, p: T -> bool): (r: seq<T>)
    ensures Elements(r) == set x | x in s && p(x)
    ensures Distinct(s) ==> Distinct(r)
    decreases |s|
  {
    if s == [] then []
    else
      var rest := Filter(s[1..], p);
      assert Elements(s) == {s[0]} + Elements(s[1..]);
      assert Elements([s[0]] + rest) == {s[0]} + Elements(rest);
      assert Distinct(s) ==> s[0] !in Elements(s[1..]);
      if p(s[0]) then [s[0]] + rest else rest
  }

  lemma ElementsPrefix<T>(s: seq<T>, i: nat)
    requires i < |s|
    ensures Elements(s[..i+1]) == Elements(s[..i]) + {s[i]}
  {
    assert s[..i+1] == s[..i] + [s[i]];
  }

  lemma DistinctNotInPrefix<T>(s: seq<T>, i: nat)
    requires Distinct(s) && i < |s|
    ensures s[i] !in s[..i]
  {
  }

  /** A sequence without repetitions has as many elements as its element set. */
  lemma {:induction false} DistinctCard<T>(s: seq<T>)
    requires Distinct(s)
    ensures |Elements(s)| == |s|
    decreases |s|
  {
    if s != [] {
      assert Elements(s) == {s[0]} + Elements(s[1..]);
      assert s[0] !in Elements(s[1..]);
      DistinctCard(s[1..]);
    }
  }

  /** `s` without the elements of `gone`, order kept: what deleting those keys does to a `Map`'s iteration order. */
  function Without<T(==)>(s: seq<T>, gone: set<T>): (r: seq<T>)
    ensures Elements(r) == Elements(s) - gone
    ensures Distinct(s) ==> Distinct(r)
    decreases |s|
  {
    if s == [] then []
    else
      var rest := Without(s[1..], gone);
      assert Elements(s) == {s[0]} + Elements(s[1..]);
      assert Elements([s[0]] + rest) == {s[0]} + Elements(rest);
      assert Distinct(s) ==> s[0] !in Elements(s[1..]);
      if s[0] in gone then rest else [s[0]] + rest
  }

  lemma {:induction false} WithoutNone<T>(s: seq<T>)
    ensures Without(s, {}) == s
    decreases |s|
  {
    if s != [] {
      WithoutNone(s[1..]);
    }
  }

  /** Removing one more element from what is left is removing it together with the others. */
  lemma {:induction false} WithoutRemove<T>(s: seq<T>, gone: set<T>, x: T)
    ensures Remove(Without(s, gone), x) == Without(s, gone + {x})
    decreases |s|
  {
    if s != [] {
      WithoutRemove(s[1..], gone, x);
    }
  }

  /** Only the elements of `s` matter to what `Without` leaves. */
  lemma {:induction false} WithoutAgree<T>(s: seq<T>, gone: set<T>, gone': set<T>)
    requires forall x :: x in s ==> (x in gone <==> x in gone')
    ensures Without(s, gone) == Without(s, gone')
    decreases |s|
  {
    if s != [] {
      WithoutAgree(s[1..], gone, gone');
    }
  }

  lemma {:induction false} WithoutWithout<T>(s: seq<T>, gone: set<T>, more: set<T>)
    ensures Without(Without(s, gone), more) == Without(s, gone + more)
    decreases |s|
  {
    if s != [] {
      WithoutWithout(s[1..], gone, more);
    }
  }

  /** Appending six lists one after another is appending their concatenation. */
  lemma Concat6<T>(s: seq<T>, a: seq<T>, b: seq<T>, c: seq<T>, d: seq<T>, e: seq<T>, f: seq<T>)
    ensures s + a + b + c + d + e + f == s + (a + b + c + d + e + f)
  {
  }

  /** The same for seven lists. */
  lemma Concat7<T>(s: seq<T>, a: seq<T>, b: seq<T>, c: seq<T>, d: seq<T>, e: seq<T>, f: seq<T>, g: seq<T>)
    ensures s + a + b + c + d + e + f + g == s + (a + b + c + d + e + f + g)
  {
  }
}
