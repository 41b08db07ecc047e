/** The transposition table of the search: a map from a position key to what
    the search has learnt about that position, holding at most maxSize keys.
    The map keeps its keys in insertion order, as a JavaScript Map does, and
    when a new key arrives at capacity the earliest-inserted key is evicted.
    The table is modelled as the Map's own sequence of (key, entry) pairs. */
module Transposition {
  import opened Types
  import opened Collections

  /** TranspositionTableEntry: every field is optional. */
  datatype Entry = Entry(
    legalMoves: Option<seq<Move>>,
    orderedMovesTop: Option<seq<Move>>,
    orderedMovesBottom: Option<seq<Move>>,
    hasOnlyMove: Option<bool>,
    onlyMove: Option<Move>,
    isEnded: Option<bool>,
    endReason: Option<GameEndReason>,
    winner: Option<Color>,
    depth: Option<real>,
    bestMove: Option<Move>,
    score: Option<Score>)

  /** The object literal `{}`. */
  const EmptyEntry: Entry := Entry(None, None, None, None, None, None, None, None, None, None, None)

  /** The size the table is built with when none is given. */
  const DefaultMaxSize: nat := 10000

  /** How many keys the table can hold: with a maximum of 0 the table still
      keeps the one key just inserted. */
  function Capacity(maxSize: nat): nat {
    if maxSize == 0 then 1 else maxSize
  }

  /** The Map's keys, in insertion order. */
  function KeysOf<K>(s: seq<(K, Entry)>): (r: seq<K>)
    ensures |r| == |s| && forall i :: 0 <= i < |s| ==> r[i] == s[i].0
  {
    seq(|s|, i requires 0 <= i < |s| => s[i].0)
  }

  /** Map.get. */
  function Get<K(==)>(s: seq<(K, Entry)>, h: K): Option<Entry>
    decreases |s|
  {
    if s == [] then None
    else if s[0].0 == h then Some(s[0].1)
    else Get(s[1..], h)
  }

  /** Map.set: a present key keeps its place and takes the new entry, a new
      key goes last. */
  function Put<K(==)>(s: seq<(K, Entry)>, h: K, e: Entry): seq<(K, Entry)>
    decreases |s|
  {
    if s == [] then [(h, e)]
    else if s[0].0 == h then [(h, e)] + s[1..]
    else [s[0]] + Put(s[1..], h, e)
  }

  /** setEntry evicts exactly when the key is new and the table is full and
      not empty. */
  predicate Evicts<K(==)>(s: seq<(K, Entry)>, maxSize: nat, h: K) {
    h !in KeysOf(s) && |s| >= maxSize && |s| > 0
  }

  /** The table after setEntry(h, e). */
  function Stored<K(==)>(s: seq<(K, Entry)>, maxSize: nat, h: K, e: Entry): seq<(K, Entry)> {
    Put(if Evicts(s, maxSize, h) then s[1..] else s, h, e)
  }

  /** The entry updateSearchWindow stores: the previous entry with a new
      depth, score and best move. */
  function Window(prev: Entry, depth: real, score: Score, bestMove: Option<Move>): (e: Entry)
    ensures e.depth == Some(depth) && e.score == Some(score) && e.bestMove == bestMove
    ensures e.legalMoves == prev.legalMoves && e.orderedMovesTop == prev.orderedMovesTop
    ensures e.orderedMovesBottom == prev.orderedMovesBottom && e.hasOnlyMove == prev.hasOnlyMove
    ensures e.onlyMove == prev.onlyMove && e.isEnded == prev.isEnded
    ensures e.endReason == prev.endReason && e.winner == prev.winner
  {
    prev.(depth := Some(depth), score := Some(score), bestMove := bestMove)
  }

  // ------------------------------------------------------------ the Map

  lemma {:induction false} GetMembership<K>(s: seq<(K, Entry)>, h: K)
    ensures Get(s, h).Some? <==> h in KeysOf(s)
    ensures Get(s, h).Some? ==> (h, Get(s, h).value) in s
    decreases |s|
  {
    if s != [] {
      GetMembership(s[1..], h);
      assert KeysOf(s) == [s[0].0] + KeysOf(s[1..]);
    }
  }

  /** Map.set then Map.get gives the entry just set, and no other key's
      entry changes. */
  lemma {:induction false} GetPut<K>(s: seq<(K, Entry)>, h: K, e: Entry, k: K)
    ensures Get(Put(s, h, e), k) == if k == h then Some(e) else Get(s, k)
    decreases |s|
  {
    if s != [] && s[0].0 != h {
      GetPut(s[1..], h, e, k);
      assert Put(s, h, e)[1..] == Put(s[1..], h, e);
    }
  }

  /** Map.set keeps the key order of a present key, and appends a new one. */
  lemma {:induction false} KeysPut<K>(s: seq<(K, Entry)>, h: K, e: Entry)
    ensures KeysOf(Put(s, h, e)) == if h in KeysOf(s) then KeysOf(s) else KeysOf(s) + [h]
    decreases |s|
  {
    if s == [] {
      KeysOfCons((h, e), []);
    } else if s[0].0 == h {
      KeysOfCons(s[0], s[1..]);
      KeysOfCons((h, e), s[1..]);
      assert [s[0]] + s[1..] == s;
    } else {
      KeysPut(s[1..], h, e);
      KeysOfCons(s[0], s[1..]);
      KeysOfCons(s[0], Put(s[1..], h, e));
      assert [s[0]] + s[1..] == s;
      KeysPutStep(s[0].0, KeysOf(s[1..]), h);
    }
  }

  /** The keys of a pair followed by more pairs. */
  lemma KeysOfCons<K>(p: (K, Entry), t: seq<(K, Entry)>)
    ensures KeysOf([p] + t) == [p.0] + KeysOf(t)
  {
  }

  /** The step of KeysPut past a different first key k. */
  lemma KeysPutStep<K>(k: K, ks: seq<K>, h: K)
    requires k != h
    ensures h in [k] + ks <==> h in ks
    ensures [k] + (if h in ks then ks else ks + [h]) == if h in [k] + ks then [k] + ks else ([k] + ks) + [h]
  {
    if h !in ks {
      assert [k] + (ks + [h]) == ([k] + ks) + [h];
    }
  }

  /** Every pair of the set Map is the new one or an old one. */
  lemma {:induction false} PutPairs<K>(s: seq<(K, Entry)>, h: K, e: Entry)
    ensures forall p :: p in Put(s, h, e) ==> p == (h, e) || p in s
    decreases |s|
  {
    if s != [] && s[0].0 != h {
      PutPairs(s[1..], h, e);
    }
  }

  lemma DistinctTail<T>(s: seq<T>)
    requires Distinct(s) && s != []
    ensures Distinct(s[1..]) && s[0] !in s[1..]
  {
  }

  lemma DistinctAppend<T>(s: seq<T>, x: T)
    requires Distinct(s) && x !in s
    ensures Distinct(s + [x])
  {
  }

  // ------------------------------------------------------------ setEntry

  /** getEntry right after setEntry(h, e) gives e. */
  lemma StoredGet<K>(s: seq<(K, Entry)>, maxSize: nat, h: K, e: Entry)
    ensures Get(Stored(s, maxSize, h, e), h) == Some(e)
  {
    GetPut(if Evicts(s, maxSize, h) then s[1..] else s, h, e, h);
  }

  /** setEntry changes the key order only by appending a new key, after
      dropping the earliest one when the table is full: overwriting a key
      evicts nothing and moves nothing. */
  lemma StoredKeys<K>(s: seq<(K, Entry)>, maxSize: nat, h: K, e: Entry)
    ensures KeysOf(Stored(s, maxSize, h, e)) ==
              if h in KeysOf(s) then KeysOf(s)
              else if |s| >= maxSize && |s| > 0 then KeysOf(s)[1..] + [h]
              else KeysOf(s) + [h]
  {
    var base := if Evicts(s, maxSize, h) then s[1..] else s;
    KeysPut(base, h, e);
    if Evicts(s, maxSize, h) {
      assert KeysOf(base) == KeysOf(s)[1..];
      assert h !in KeysOf(base);
    }
  }

  /** With distinct keys, setEntry leaves every other key's entry as it was,
      except the earliest key when it is evicted. */
  lemma StoredOthers<K>(s: seq<(K, Entry)>, maxSize: nat, h: K, e: Entry, k: K)
    requires Distinct(KeysOf(s)) && k != h
    ensures Get(Stored(s, maxSize, h, e), k) ==
              if Evicts(s, maxSize, h) && k == s[0].0 then None else Get(s, k)
  {
    var base := if Evicts(s, maxSize, h) then s[1..] else s;
    GetPut(base, h, e, k);
    if Evicts(s, maxSize, h) {
      assert KeysOf(s) == [s[0].0] + KeysOf(s[1..]);
      DistinctTail(KeysOf(s));
      assert KeysOf(s)[1..] == KeysOf(s[1..]);
      GetMembership(s[1..], k);
    }
  }

  /** With a maximum of at least one, the table never holds more than the
      maximum; the keys stay distinct. */
  lemma StoredBound<K>(s: seq<(K, Entry)>, maxSize: nat, h: K, e: Entry)
    requires Distinct(KeysOf(s)) && |s| <= Capacity(maxSize)
    ensures Distinct(KeysOf(Stored(s, maxSize, h, e)))
    ensures |Stored(s, maxSize, h, e)| <= Capacity(maxSize)
    ensures maxSize >= 1 ==> |Stored(s, maxSize, h, e)| <= maxSize
  {
    StoredKeys(s, maxSize, h, e);
    if h !in KeysOf(s) {
      if |s| >= maxSize && |s| > 0 {
        DistinctTail(KeysOf(s));
        assert h !in KeysOf(s)[1..];
        DistinctAppend(KeysOf(s)[1..], h);
      } else {
        DistinctAppend(KeysOf(s), h);
      }
    }
  }

  /** Every pair of the table after setEntry is the one just set or one that
      was there before. */
  lemma StoredPairs<K>(s: seq<(K, Entry)>, maxSize: nat, h: K, e: Entry)
    ensures forall p :: p in Stored(s, maxSize, h, e) ==> p == (h, e) || p in s
  {
    var base := if Evicts(s, maxSize, h) then s[1..] else s;
    PutPairs(base, h, e);
    assert forall p :: p in base ==> p in s;
  }

  // ------------------------------------------------------------ the table

  class TranspositionTable<K(==)> {
    var entries: seq<(K, Entry)>
    const maxSize: nat

    /** The keys are distinct and there are no more of them than the table
        holds. */
    ghost predicate Valid()
      reads this
    {
      Distinct(KeysOf(entries)) && |entries| <= Capacity(maxSize)
    }

    constructor(maxSize: nat)
      ensures Valid() && this.maxSize == maxSize && entries == []
    {
      this.maxSize := maxSize;
      entries := [];
    }

    /** getEntry: the entry stored under h, if any; the key order is not
        touched. */
    function GetEntry(h: K): (e: Option<Entry>)
      reads this
      ensures e.Some? <==> h in KeysOf(entries)
      ensures e.Some? ==> (h, e.value) in entries
    {
      GetMembership(entries, h);
      Get(entries, h)
    }

    /** setEntry: when h is new and the table is full, the earliest key goes;
        then h holds e. */
    method SetEntry(h: K, e: Entry)
      requires Valid()
      modifies this
      ensures Valid()
      ensures entries == Stored(old(entries), maxSize, h, e)
    {
      StoredBound(entries, maxSize, h, e);
      if h !in KeysOf(entries) && |entries| >= maxSize {
        if |entries| > 0 {
          entries := entries[1..];
        }
      }
      entries := Put(entries, h, e);
    }

    /** updateSearchWindow: the previous entry (or an empty one) with the
        new depth, score and best move. */
    method UpdateSearchWindow(h: K, depth: real, score: Score, bestMove: Option<Move>)
      requires Valid()
      modifies this
      ensures Valid()
      ensures entries == Stored(old(entries), maxSize, h,
                                Window(Get(old(entries), h).GetOr(EmptyEntry), depth, score, bestMove))
    {
      var prev := GetEntry(h).GetOr(EmptyEntry);
      SetEntry(h, Window(prev, depth, score, bestMove));
    }

    /** clear: no entries left. */
    method Clear()
      modifies this
      ensures Valid() && entries == []
    {
      entries := [];
    }
  }
}
