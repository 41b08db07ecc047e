/** Sequence facts shared by the board, the hash and the evaluation: the key
    order of an insertion-ordered index, and folds whose value does not depend
    on the order in which the keys are visited. */
module Collections {

  predicate Distinct<T(==)>(s: seq<T>) {
    forall i, j :: 0 <= i < j < |s| ==> s[i] != s[j]
  }

  /** `o` lists every key of `m` exactly once. */
  predicate IsEnumeration<K(==,!new), V>(o: seq<K>, m: map<K, V>) {
    Distinct(o) && (forall k :: k in o ==> k in m) && (forall k :: k in m ==> k in o)
  }

  /** `s` with every occurrence of `x` deleted, the rest in order. */
  function Without<T(==,!new)>(s: seq<T>, x: T): (r: seq<T>)
    ensures forall y :: y in r <==> y in s && y != x
    ensures |r| <= |s|
    ensures x !in s ==> r == s
  {
    if s == [] then []
    else if s[|s| - 1] == x then Without(s[..|s| - 1], x)
    else Without(s[..|s| - 1], x) + [s[|s| - 1]]
  }

  lemma {:induction false} WithoutDistinct<T(!new)>(s: seq<T>, x: T)
    requires Distinct(s)
    ensures Distinct(Without(s, x))
    decreases |s|
  {
    if s != [] {
      var init := s[..|s| - 1];
      assert Distinct(init);
      WithoutDistinct(init, x);
      if s[|s| - 1] != x {
        var w := Without(init, x);
        assert s[|s| - 1] !in init;
        assert s[|s| - 1] !in w;
        var r := w + [s[|s| - 1]];
        forall i, j | 0 <= i < j < |r| ensures r[i] != r[j] {
          if j == |r| - 1 {
            assert r[i] in w;
          }
        }
      }
    }
  }

  /** Deleting a key and appending it again keeps the sequence an enumeration
      of the updated map; deleting alone enumerates the map without it. */
  lemma EnumerationMoveToEnd<K(!new), V>(o: seq<K>, m: map<K, V>, k: K, v: V)
    requires IsEnumeration(o, m)
    ensures IsEnumeration(Without(o, k) + [k], m[k := v])
    ensures IsEnumeration(Without(o, k), m - {k})
  {
    WithoutDistinct(o, k);
    var w := Without(o, k);
    var r := w + [k];
    forall i, j | 0 <= i < j < |r| ensures r[i] != r[j] {
      if j == |r| - 1 {
        assert r[i] in w;
      }
    }
  }

  /** An enumeration has as many entries as the map has keys. */
  lemma {:induction false} EnumerationSize<K(!new), V>(o: seq<K>, m: map<K, V>)
    requires IsEnumeration(o, m)
    ensures |m| == |o|
    decreases |o|
  {
    if o == [] {
      assert m.Keys == {};
    } else {
      var n := |o| - 1;
      var init := o[..n];
      assert o == init + [o[n]];
      assert IsEnumeration(init, m - {o[n]});
      EnumerationSize(init, m - {o[n]});
    }
  }

  lemma AppendOne<T>(a: seq<T>, x: T, b: seq<T>)
    ensures a + ([x] + b) == (a + [x]) + b
  {
  }

  lemma AppendEmpty<T>(a: seq<T>)
    ensures a + [] == a
  {
  }

  /** A sequence holds its front and its last element. */
  lemma MultisetLast<T>(s: seq<T>)
    requires s != []
    ensures multiset(s) == multiset(s[..|s| - 1]) + multiset{s[|s| - 1]}
  {
    assert s == s[..|s| - 1] + [s[|s| - 1]];
  }

  lemma HeadIn<T>(s: seq<T>)
    ensures s != [] ==> s[0] in s
  {
  }

  /** The sum of g over s, from the left. */
  function SumOver<T>(s: seq<T>, g: T -> int): int
    decreases |s|
  {
    if s == [] then 0 else SumOver(s[..|s| - 1], g) + g(s[|s| - 1])
  }

  lemma {:induction false} SumOverConcat<T>(a: seq<T>, b: seq<T>, g: T -> int)
    ensures SumOver(a + b, g) == SumOver(a, g) + SumOver(b, g)
    decreases |b|
  {
    if b != [] {
      assert (a + b)[..|a + b| - 1] == a + b[..|b| - 1];
      SumOverConcat(a, b[..|b| - 1], g);
    } else {
      assert a + b == a;
    }
  }

  /** `s` with the element at index i taken out. */
  function RemoveAt<T>(s: seq<T>, i: int): (r: seq<T>)
    requires 0 <= i < |s|
    ensures |r| == |s| - 1
  {
    s[..i] + s[i + 1..]
  }

  lemma RemoveAtDistinct<T(!new)>(s: seq<T>, i: int)
    requires 0 <= i < |s| && Distinct(s)
    ensures Distinct(RemoveAt(s, i))
    ensures forall y :: y in RemoveAt(s, i) <==> y in s && y != s[i]
  {
    var r := RemoveAt(s, i);
    forall a, b | 0 <= a < b < |r| ensures r[a] != r[b] {
      var a' := if a < i then a else a + 1;
      var b' := if b < i then b else b + 1;
      assert r[a] == s[a'] && r[b] == s[b'];
    }
    forall y ensures y in r <==> y in s && y != s[i] {
      if y in s && y != s[i] {
        var j :| 0 <= j < |s| && s[j] == y;
        if j < i { assert r[j] == y; } else { assert r[j - 1] == y; }
      }
      if y in r {
        var j :| 0 <= j < |r| && r[j] == y;
        var j' := if j < i then j else j + 1;
        assert s[j'] == y && j' != i;
      }
    }
  }

  lemma SumOverRemoveAt<T>(s: seq<T>, i: int, g: T -> int)
    requires 0 <= i < |s|
    ensures SumOver(s, g) == SumOver(RemoveAt(s, i), g) + g(s[i])
  {
    SplitAround(s, i);
    SumOverInsert(s[..i], s[i], s[i + 1..], g);
  }

  lemma SplitAround<T>(s: seq<T>, i: int)
    requires 0 <= i < |s|
    ensures s == (s[..i] + [s[i]]) + s[i + 1..]
  {
  }

  lemma SumOverInsert<T>(a: seq<T>, x: T, b: seq<T>, g: T -> int)
    ensures SumOver((a + [x]) + b, g) == SumOver(a + b, g) + g(x)
  {
    SumOverConcat(a + [x], b, g);
    SumOverSingle(a, x, g);
    SumOverConcat(a, b, g);
  }

  lemma SumOverSingle<T>(a: seq<T>, x: T, g: T -> int)
    ensures SumOver(a + [x], g) == SumOver(a, g) + g(x)
  {
    assert (a + [x])[..|a|] == a;
  }

  /** A sum over distinct keys is the same in every order. */
  lemma {:induction false} SumOverPermutation<T(!new)>(s1: seq<T>, s2: seq<T>, g: T -> int)
    requires Distinct(s1) && Distinct(s2)
    requires forall x :: x in s1 <==> x in s2
    ensures SumOver(s1, g) == SumOver(s2, g)
    decreases |s1|
  {
    if s1 == [] {
      HeadIn(s2);
    } else {
      var n := |s1| - 1;
      assert s1[n] in s2;
      var i :| 0 <= i < |s2| && s2[i] == s1[n];
      RemoveAtDistinct(s1, n);
      RemoveAtDistinct(s2, i);
      assert RemoveAt(s1, n) == s1[..n];
      SumOverPermutation(s1[..n], RemoveAt(s2, i), g);
      SumOverRemoveAt(s2, i, g);
    }
  }

  /** The exclusive-or of g over s, from the left. */
  function XorOver<T>(s: seq<T>, g: T -> bv32): bv32
    decreases |s|
  {
    if s == [] then 0 else XorOver(s[..|s| - 1], g) ^ g(s[|s| - 1])
  }

  lemma XorOverRemoveAt<T>(s: seq<T>, i: int, g: T -> bv32)
    requires 0 <= i < |s|
    ensures XorOver(s, g) == XorOver(RemoveAt(s, i), g) ^ g(s[i])
  {
    SplitAround(s, i);
    XorOverMiddle(s[..i], s[i], s[i + 1..], g);
  }

  /** Taking one element out of the middle of the fold. */
  lemma {:induction false} XorOverMiddle<T>(a: seq<T>, x: T, b: seq<T>, g: T -> bv32)
    ensures XorOver(a + [x] + b, g) == XorOver(a + b, g) ^ g(x)
    decreases |b|
  {
    if b == [] {
      assert a + [x] + b == a + [x];
      assert a + b == a;
      XorOverSingle(a, x, g);
    } else {
      var n := |b| - 1;
      var b', y := b[..n], b[n];
      assert a + [x] + b == (a + [x] + b') + [y];
      assert a + b == (a + b') + [y];
      XorOverMiddle(a, x, b', g);
      XorOverSingle(a + [x] + b', y, g);
      XorOverSingle(a + b', y, g);
      XorSwap(XorOver(a + b', g), g(x), g(y));
    }
  }

  lemma XorOverSingle<T>(a: seq<T>, x: T, g: T -> bv32)
    ensures XorOver(a + [x], g) == XorOver(a, g) ^ g(x)
  {
    assert (a + [x])[..|a|] == a;
  }

  /** The fold only looks at g on the elements of s. */
  lemma {:induction false} XorOverCongruent<T>(s: seq<T>, g1: T -> bv32, g2: T -> bv32)
    requires forall x :: x in s ==> g1(x) == g2(x)
    ensures XorOver(s, g1) == XorOver(s, g2)
    decreases |s|
  {
    if s != [] {
      XorOverCongruent(s[..|s| - 1], g1, g2);
    }
  }

  lemma XorSwap(p: bv32, q: bv32, r: bv32)
    ensures (p ^ q) ^ r == (p ^ r) ^ q
  {
  }

  /** An exclusive-or over distinct keys is the same in every order. */
  lemma {:induction false} XorOverPermutation<T(!new)>(s1: seq<T>, s2: seq<T>, g: T -> bv32)
    requires Distinct(s1) && Distinct(s2)
    requires forall x :: x in s1 <==> x in s2
    ensures XorOver(s1, g) == XorOver(s2, g)
    decreases |s1|
  {
    if s1 == [] {
      HeadIn(s2);
    } else {
      var n := |s1| - 1;
      assert s1[n] in s2;
      var i :| 0 <= i < |s2| && s2[i] == s1[n];
      RemoveAtDistinct(s1, n);
      RemoveAtDistinct(s2, i);
      assert RemoveAt(s1, n) == s1[..n];
      XorOverPermutation(s1[..n], RemoveAt(s2, i), g);
      XorOverRemoveAt(s2, i, g);
    }
  }
}
