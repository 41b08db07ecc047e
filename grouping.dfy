/** The list manipulations behind the move ordering of the search, for any
    kind of item: picking out the flagged items with their counts, grouping
    them by count in ascending order, and sorting the counts. */
module Grouping {
  import opened Collections

  /** An item with a count. */
  type Counted<T> = (T, nat)

  function Items<T>(s: seq<Counted<T>>): (r: seq<T>)
    ensures |r| == |s|
    decreases |s|
  {
    if s == [] then [] else Items(s[..|s| - 1]) + [s[|s| - 1].0]
  }

  lemma {:induction false} ItemsAppend<T>(a: seq<Counted<T>>, b: seq<Counted<T>>)
    ensures Items(a + b) == Items(a) + Items(b)
    decreases |b|
  {
    if b == [] {
      assert a + b == a;
    } else {
      var n := |b| - 1;
      assert (a + b)[..|a + b| - 1] == a + b[..n];
      assert (a + b)[|a + b| - 1] == b[n];
      ItemsAppend(a, b[..n]);
    }
  }

  lemma {:induction false} ItemsAt<T>(s: seq<Counted<T>>)
    ensures forall i :: 0 <= i < |s| ==> Items(s)[i] == s[i].0
    decreases |s|
  {
    if s != [] {
      ItemsAt(s[..|s| - 1]);
    }
  }

  // ------------------------------------------------------------ picking

  /** The items whose flag is set, each with the count beside its flag. */
  function Picked<T>(s: seq<T>, flags: seq<(bool, nat)>): seq<Counted<T>>
    requires |flags| == |s|
    decreases |s|
  {
    if s == [] then []
    else
      var n := |s| - 1;
      var prev := Picked(s[..n], flags[..n]);
      if flags[n].0 then prev + [(s[n], flags[n].1)] else prev
  }

  /** The items whose flag is clear, in their order. */
  function Rest<T>(s: seq<T>, flags: seq<(bool, nat)>): seq<T>
    requires |flags| == |s|
    decreases |s|
  {
    if s == [] then []
    else
      var n := |s| - 1;
      var prev := Rest(s[..n], flags[..n]);
      if flags[n].0 then prev else prev + [s[n]]
  }

  /** One more item flagged. */
  lemma PickedStep<T>(s: seq<T>, flags: seq<(bool, nat)>, i: int)
    requires |flags| == |s| && 0 <= i < |s|
    ensures Picked(s[..i + 1], flags[..i + 1]) ==
              Picked(s[..i], flags[..i]) + (if flags[i].0 then [(s[i], flags[i].1)] else [])
    ensures Rest(s[..i + 1], flags[..i + 1]) == Rest(s[..i], flags[..i]) + (if flags[i].0 then [] else [s[i]])
  {
    assert s[..i + 1][..i] == s[..i];
    assert flags[..i + 1][..i] == flags[..i];
  }

  /** Picked and Rest together are a permutation of the items. */
  lemma {:induction false} PickedRestPermutation<T>(s: seq<T>, flags: seq<(bool, nat)>)
    requires |flags| == |s|
    ensures multiset(Items(Picked(s, flags))) + multiset(Rest(s, flags)) == multiset(s)
    decreases |s|
  {
    if s != [] {
      var n := |s| - 1;
      PickedRestPermutation(s[..n], flags[..n]);
      PickedRestStep(s, flags);
    }
  }

  /** The last item goes to Picked or to Rest. */
  lemma PickedRestStep<T>(s: seq<T>, flags: seq<(bool, nat)>)
    requires |flags| == |s| && s != []
    ensures multiset(Items(Picked(s, flags))) + multiset(Rest(s, flags))
            == multiset(Items(Picked(s[..|s| - 1], flags[..|s| - 1]))) + multiset(Rest(s[..|s| - 1], flags[..|s| - 1]))
               + multiset{s[|s| - 1]}
    ensures multiset(s) == multiset(s[..|s| - 1]) + multiset{s[|s| - 1]}
  {
    var n := |s| - 1;
    MultisetLast(s);
    var ip, rest := Items(Picked(s[..n], flags[..n])), Rest(s[..n], flags[..n]);
    if flags[n].0 {
      PickedFlaggedLast(s, flags);
      MultisetSwap(multiset(ip), multiset(rest), multiset{s[n]});
    } else {
      RestUnflaggedLast(s, flags);
      MultisetAssoc(multiset(ip), multiset(rest), multiset{s[n]});
    }
  }

  /** An unflagged last item ends the rest. */
  lemma RestUnflaggedLast<T>(s: seq<T>, flags: seq<(bool, nat)>)
    requires |flags| == |s| && s != [] && !flags[|s| - 1].0
    ensures Picked(s, flags) == Picked(s[..|s| - 1], flags[..|s| - 1])
    ensures multiset(Rest(s, flags)) == multiset(Rest(s[..|s| - 1], flags[..|s| - 1])) + multiset{s[|s| - 1]}
  {
  }

  /** A flagged last item ends the picked items. */
  lemma PickedFlaggedLast<T>(s: seq<T>, flags: seq<(bool, nat)>)
    requires |flags| == |s| && s != [] && flags[|s| - 1].0
    ensures multiset(Items(Picked(s, flags)))
            == multiset(Items(Picked(s[..|s| - 1], flags[..|s| - 1]))) + multiset{s[|s| - 1]}
    ensures Rest(s, flags) == Rest(s[..|s| - 1], flags[..|s| - 1])
  {
    var n := |s| - 1;
    var prev := Picked(s[..n], flags[..n]);
    ItemsAppend(prev, [(s[n], flags[n].1)]);
    assert Items([(s[n], flags[n].1)]) == [s[n]];
  }

  lemma MultisetSwap<T>(a: multiset<T>, b: multiset<T>, x: multiset<T>)
    ensures (a + x) + b == (a + b) + x
  {
  }

  lemma MultisetAssoc<T>(a: multiset<T>, b: multiset<T>, x: multiset<T>)
    ensures a + (b + x) == (a + b) + x
  {
  }

  /** A picked item is a flagged item with its count; a rest item is an
      unflagged one. */
  lemma {:induction false} PickedRestMembership<T>(s: seq<T>, flags: seq<(bool, nat)>)
    requires |flags| == |s|
    ensures forall p :: p in Picked(s, flags) ==> exists i :: 0 <= i < |s| && s[i] == p.0 && flags[i] == (true, p.1)
    ensures forall x :: x in Rest(s, flags) ==> exists i :: 0 <= i < |s| && s[i] == x && !flags[i].0
    decreases |s|
  {
    if s != [] {
      var n := |s| - 1;
      PickedRestMembership(s[..n], flags[..n]);
      forall p | p in Picked(s[..n], flags[..n])
        ensures exists i :: 0 <= i < |s| && s[i] == p.0 && flags[i] == (true, p.1)
      {
        var i :| 0 <= i < n && s[..n][i] == p.0 && flags[..n][i] == (true, p.1);
        assert s[i] == p.0 && flags[i] == (true, p.1);
      }
      forall x | x in Rest(s[..n], flags[..n])
        ensures exists i :: 0 <= i < |s| && s[i] == x && !flags[i].0
      {
        var i :| 0 <= i < n && s[..n][i] == x && !flags[..n][i].0;
        assert s[i] == x && !flags[i].0;
      }
    }
  }

  // ------------------------------------------------------------ buckets

  /** The items with count n, in the order they came. */
  function Bucket<T>(s: seq<Counted<T>>, n: nat): seq<Counted<T>>
    decreases |s|
  {
    if s == [] then []
    else
      var prev := Bucket(s[..|s| - 1], n);
      if s[|s| - 1].1 == n then prev + [s[|s| - 1]] else prev
  }

  lemma BucketAppend<T>(s: seq<Counted<T>>, p: Counted<T>, n: nat)
    ensures Bucket(s + [p], n) == Bucket(s, n) + (if p.1 == n then [p] else [])
  {
    assert (s + [p])[..|s|] == s;
  }

  lemma {:induction false} BucketCounts<T>(s: seq<Counted<T>>, n: nat)
    ensures forall p :: p in Bucket(s, n) ==> p.1 == n
    decreases |s|
  {
    if s != [] {
      BucketCounts(s[..|s| - 1], n);
    }
  }

  /** The buckets of ks, one after the other. */
  function Grouped<T>(s: seq<Counted<T>>, ks: seq<nat>): seq<Counted<T>>
    decreases |ks|
  {
    if ks == [] then []
    else Grouped(s, ks[..|ks| - 1]) + Bucket(s, ks[|ks| - 1])
  }

  /** One more count groups one more bucket, after the others. */
  lemma GroupedItemsStep<T>(s: seq<Counted<T>>, ks: seq<nat>, k: nat)
    requires k < |ks|
    ensures Items(Grouped(s, ks[..k + 1])) == Items(Grouped(s, ks[..k])) + Items(Bucket(s, ks[k]))
  {
    assert ks[..k + 1][..k] == ks[..k];
    ItemsAppend(Grouped(s, ks[..k]), Bucket(s, ks[k]));
  }

  lemma {:induction false} GroupedCounts<T>(s: seq<Counted<T>>, ks: seq<nat>)
    ensures forall p :: p in Grouped(s, ks) ==> p.1 in ks
    decreases |ks|
  {
    if ks != [] {
      var init, k := ks[..|ks| - 1], ks[|ks| - 1];
      GroupedCounts(s, init);
      BucketCounts(s, k);
      assert forall x :: x in init ==> x in ks;
    }
  }

  lemma {:induction false} GroupedEmpty<T>(ks: seq<nat>)
    ensures Grouped<T>([], ks) == []
    decreases |ks|
  {
    if ks != [] {
      GroupedEmpty<T>(ks[..|ks| - 1]);
    }
  }

  /** The keys of countRecord: the counts in the order they first came. */
  function DistinctCounts<T>(s: seq<Counted<T>>): (r: seq<nat>)
    ensures Distinct(r)
    ensures forall n :: n in r <==> exists p :: p in s && p.1 == n
    decreases |s|
  {
    if s == [] then []
    else
      var prev := DistinctCounts(s[..|s| - 1]);
      assert s == s[..|s| - 1] + [s[|s| - 1]];
      if s[|s| - 1].1 in prev then prev else prev + [s[|s| - 1].1]
  }

  // ------------------------------------------------------------ sorting

  /** The numeric ascending sort of the counts, as an insertion sort. */
  function Insert(x: nat, s: seq<nat>): (r: seq<nat>)
    ensures multiset(r) == multiset(s) + multiset{x}
    ensures forall y :: y in r <==> y == x || y in s
    decreases |s|
  {
    if s == [] then [x]
    else if x <= s[0] then [x] + s
    else
      assert s == [s[0]] + s[1..];
      [s[0]] + Insert(x, s[1..])
  }

  function SortAscending(s: seq<nat>): (r: seq<nat>)
    ensures multiset(r) == multiset(s)
    ensures forall y :: y in r <==> y in s
    decreases |s|
  {
    if s == [] then []
    else
      assert s == s[..|s| - 1] + [s[|s| - 1]];
      Insert(s[|s| - 1], SortAscending(s[..|s| - 1]))
  }

  predicate Ascending(s: seq<nat>) {
    forall i, j :: 0 <= i < j < |s| ==> s[i] <= s[j]
  }

  lemma {:induction false} InsertAscending(x: nat, s: seq<nat>)
    requires Ascending(s)
    ensures Ascending(Insert(x, s))
    decreases |s|
  {
    if s != [] && x > s[0] {
      InsertAscending(x, s[1..]);
      var r := Insert(x, s[1..]);
      assert forall y :: y in r ==> s[0] <= y;
      var t := [s[0]] + r;
      forall i, j | 0 <= i < j < |t| ensures t[i] <= t[j] {
        if i == 0 {
          assert t[j] in r;
        }
      }
    }
  }

  lemma {:induction false} InsertDistinct(x: nat, s: seq<nat>)
    requires Distinct(s) && x !in s
    ensures Distinct(Insert(x, s))
    decreases |s|
  {
    if s != [] && x > s[0] {
      assert s[0] !in s[1..];
      InsertDistinct(x, s[1..]);
    }
  }

  /** The sorted counts ascend, and are distinct when the counts are. */
  lemma {:induction false} SortAscendingSorted(s: seq<nat>)
    ensures Ascending(SortAscending(s))
    ensures Distinct(s) ==> Distinct(SortAscending(s))
    decreases |s|
  {
    if s != [] {
      var init := s[..|s| - 1];
      SortAscendingSorted(init);
      InsertAscending(s[|s| - 1], SortAscending(init));
      if Distinct(s) {
        assert Distinct(init);
        assert s[|s| - 1] !in init;
        InsertDistinct(s[|s| - 1], SortAscending(init));
      }
    }
  }

  // ------------------------------------------------------------ grouping

  /** The counts before the last are distinct too, and miss the last. */
  lemma DistinctLast(ks: seq<nat>, x: nat)
    requires Distinct(ks) && ks != []
    ensures Distinct(ks[..|ks| - 1]) && ks[|ks| - 1] !in ks[..|ks| - 1]
    ensures x in ks <==> x in ks[..|ks| - 1] || x == ks[|ks| - 1]
  {
    assert ks == ks[..|ks| - 1] + [ks[|ks| - 1]];
  }

  lemma {:induction false} GroupedAppend<T>(s: seq<Counted<T>>, p: Counted<T>, ks: seq<nat>)
    requires Distinct(ks)
    ensures multiset(Grouped(s + [p], ks)) == multiset(Grouped(s, ks)) + (if p.1 in ks then multiset{p} else multiset{})
    decreases |ks|
  {
    if ks != [] {
      var init, k := ks[..|ks| - 1], ks[|ks| - 1];
      DistinctLast(ks, p.1);
      GroupedAppend(s, p, init);
      BucketAppend(s, p, k);
    }
  }

  /** Grouping along distinct counts that cover every count loses and adds
      nothing: it is a permutation. */
  lemma {:induction false} GroupedPermutation<T>(s: seq<Counted<T>>, ks: seq<nat>)
    requires Distinct(ks) && forall p :: p in s ==> p.1 in ks
    ensures multiset(Grouped(s, ks)) == multiset(s)
    decreases |s|
  {
    if s == [] {
      GroupedEmpty<T>(ks);
    } else {
      var init, p := s[..|s| - 1], s[|s| - 1];
      assert s == init + [p];
      assert forall q :: q in init ==> q in s;
      GroupedPermutation(init, ks);
      GroupedAppend(init, p, ks);
      assert p.1 in ks;
      calc {
        multiset(Grouped(s, ks));
        multiset(Grouped(init, ks)) + multiset{p};
        multiset(init) + multiset{p};
        multiset(s);
      }
    }
  }

  /** Taking out the item at i. */
  lemma RemoveAt<T>(b: seq<T>, i: int)
    requires 0 <= i < |b|
    ensures multiset(b[..i] + b[i + 1..]) == multiset(b) - multiset{b[i]}
  {
    assert b == b[..i] + [b[i]] + b[i + 1..];
  }

  lemma ItemsSplit<T>(b: seq<Counted<T>>, i: int)
    requires 0 <= i < |b|
    ensures multiset(Items(b)) == multiset(Items(b[..i] + b[i + 1..])) + multiset{b[i].0}
  {
    SplitAround(b, i);
    ItemsMiddle(b[..i], b[i], b[i + 1..]);
  }

  lemma ItemsMiddle<T>(a: seq<Counted<T>>, x: Counted<T>, b: seq<Counted<T>>)
    ensures multiset(Items(a + [x] + b)) == multiset(Items(a + b)) + multiset{x.0}
  {
    ItemsAppend(a + [x], b);
    ItemsAppend(a, [x]);
    ItemsAppend(a, b);
    assert Items([x]) == [x.0];
  }

  /** Items of two permutations of each other are permutations of each
      other. */
  lemma {:induction false} ItemsPermutation<T>(a: seq<Counted<T>>, b: seq<Counted<T>>)
    requires multiset(a) == multiset(b)
    ensures multiset(Items(a)) == multiset(Items(b))
    decreases |a|
  {
    assert |a| == |multiset(a)| == |b|;
    if a != [] {
      var n := |a| - 1;
      var x := a[n];
      assert a == a[..n] + [x];
      assert x in multiset(b);
      var i :| 0 <= i < |b| && b[i] == x;
      var rest := b[..i] + b[i + 1..];
      RemoveAt(b, i);
      assert multiset(a[..n]) == multiset(a) - multiset{x};
      ItemsPermutation(a[..n], rest);
      ItemsSplit(b, i);
    }
  }

  /** Grouping along ascending counts leaves the items in ascending order of
      their counts. */
  lemma {:induction false} GroupedAscending<T>(s: seq<Counted<T>>, ks: seq<nat>)
    requires Ascending(ks)
    ensures forall i, j :: 0 <= i < j < |Grouped(s, ks)| ==> Grouped(s, ks)[i].1 <= Grouped(s, ks)[j].1
    decreases |ks|
  {
    if ks != [] {
      var init, k := ks[..|ks| - 1], ks[|ks| - 1];
      GroupedAscending(s, init);
      GroupedCounts(s, init);
      BucketCounts(s, k);
      var g, b := Grouped(s, init), Bucket(s, k);
      var gb := g + b;
      forall i, j | 0 <= i < j < |gb| ensures gb[i].1 <= gb[j].1 {
        if i < |g| && j >= |g| {
          assert g[i] in g && b[j - |g|] in b;
          var a :| 0 <= a < |init| && init[a] == g[i].1;
          assert ks[a] == g[i].1;
        } else if i >= |g| {
          assert b[i - |g|] in b && b[j - |g|] in b;
        }
      }
    }
  }

  /** The top list: the items of the buckets, fewest counts first. */
  function TopOrder<T>(s: seq<Counted<T>>): seq<T> {
    Items(Grouped(s, SortAscending(DistinctCounts(s))))
  }

  /** The top list is the items permuted so that their counts ascend. */
  lemma TopOrderSorted<T>(s: seq<Counted<T>>)
    ensures multiset(TopOrder(s)) == multiset(Items(s))
    ensures var g := Grouped(s, SortAscending(DistinctCounts(s)));
            Items(g) == TopOrder(s) && multiset(g) == multiset(s)
            && forall i, j :: 0 <= i < j < |g| ==> g[i].1 <= g[j].1
  {
    var ks := SortAscending(DistinctCounts(s));
    SortAscendingSorted(DistinctCounts(s));
    forall p | p in s ensures p.1 in ks {
      assert p.1 in DistinctCounts(s);
    }
    GroupedPermutation(s, ks);
    ItemsPermutation(Grouped(s, ks), s);
    GroupedAscending(s, ks);
  }

  // ------------------------------------------------------------ ordering

  /** flags records, item by item, whether the item passes test f and, when
      it does, a count related to it by r. */
  ghost predicate FlagsFit<T>(s: seq<T>, flags: seq<(bool, nat)>, f: T -> bool, r: (T, nat) -> bool) {
    |flags| == |s|
    && forall i :: 0 <= i < |s| ==> flags[i].0 == f(s[i]) && (flags[i].0 ==> r(s[i], flags[i].1))
  }

  /** One more item flagged. */
  lemma FlagsFitStep<T>(s: seq<T>, flags: seq<(bool, nat)>, f: T -> bool, r: (T, nat) -> bool, i: int, n: nat)
    requires 0 <= i < |s| && FlagsFit(s[..i], flags, f, r)
    requires f(s[i]) ==> r(s[i], n)
    ensures FlagsFit(s[..i + 1], flags + [(f(s[i]), n)], f, r)
    ensures Picked(s[..i + 1], flags + [(f(s[i]), n)]) ==
              Picked(s[..i], flags) + (if f(s[i]) then [(s[i], n)] else [])
    ensures Rest(s[..i + 1], flags + [(f(s[i]), n)]) == Rest(s[..i], flags) + (if f(s[i]) then [] else [s[i]])
  {
    var t := s[..i + 1];
    assert forall j :: 0 <= j < i ==> t[j] == s[..i][j];
    assert t[..i] == s[..i];
    assert (flags + [(f(s[i]), n)])[..i] == flags;
  }

  /** The flagged items grouped by ascending count, and the other items:
      between them every item once. */
  lemma OrderPermutation<T>(s: seq<T>, flags: seq<(bool, nat)>, top: seq<T>, bottom: seq<T>)
    requires |flags| == |s| && bottom == Rest(s, flags) && top == TopOrder(Picked(s, flags))
    ensures multiset(top) + multiset(bottom) == multiset(s)
  {
    PickedRestPermutation(s, flags);
    TopOrderSorted(Picked(s, flags));
  }

  /** The bottom items are the ones failing f. */
  lemma OrderBottom<T>(s: seq<T>, flags: seq<(bool, nat)>, f: T -> bool, r: (T, nat) -> bool, bottom: seq<T>)
    requires FlagsFit(s, flags, f, r) && bottom == Rest(s, flags)
    ensures forall x :: x in bottom ==> x in s && !f(x)
  {
    PickedRestMembership(s, flags);
  }

  /** Every item of the top list comes from one of the counted items. */
  lemma TopOrderItems<T>(s: seq<Counted<T>>)
    ensures forall x :: x in TopOrder(s) ==> exists p :: p in s && p.0 == x
  {
    TopOrderSorted(s);
    ItemsAt(s);
    forall x | x in TopOrder(s) ensures exists p :: p in s && p.0 == x {
      assert x in multiset(Items(s));
      var k :| 0 <= k < |s| && Items(s)[k] == x;
      assert s[k] in s;
    }
  }

  /** The top items are the ones passing f. */
  lemma OrderTop<T>(s: seq<T>, flags: seq<(bool, nat)>, f: T -> bool, r: (T, nat) -> bool, top: seq<T>)
    requires FlagsFit(s, flags, f, r) && top == TopOrder(Picked(s, flags))
    ensures forall x :: x in top ==> x in s && f(x)
  {
    var picked := Picked(s, flags);
    PickedRestMembership(s, flags);
    TopOrderItems(picked);
    forall x | x in top ensures x in s && f(x) {
      var p :| p in picked && p.0 == x;
      var i :| 0 <= i < |s| && s[i] == p.0 && flags[i] == (true, p.1);
    }
  }

  /** Along the top list the counts ascend and are related to their items
      by r. */
  lemma OrderCounts<T>(s: seq<T>, flags: seq<(bool, nat)>, f: T -> bool, r: (T, nat) -> bool, top: seq<T>)
      returns (g: seq<Counted<T>>)
    requires FlagsFit(s, flags, f, r) && top == TopOrder(Picked(s, flags))
    ensures Items(g) == top && forall p :: p in g ==> r(p.0, p.1)
    ensures forall i, j :: 0 <= i < j < |g| ==> g[i].1 <= g[j].1
  {
    var picked := Picked(s, flags);
    PickedRestMembership(s, flags);
    TopOrderSorted(picked);
    g := Grouped(picked, SortAscending(DistinctCounts(picked)));
    forall p | p in g ensures r(p.0, p.1) {
      assert p in multiset(g);
      assert p in picked;
      var i :| 0 <= i < |s| && s[i] == p.0 && flags[i] == (true, p.1);
    }
  }
}
