/** The board helpers of src/engine/boardUtils.ts: an empty board, a copy of
    a board, and a board turned half a turn, each built on a fresh Board
    through setPiece. */
module BoardUtils {
  import opened Types
  import opened Collections
  import opened Geometry
  import opened Boards

  /** The square opposite l through the centre of the board. */
  function Rotated(l: Location): (r: Location)
    ensures FileIndex(r) == 7 - FileIndex(l) && RankIndex(r) == 7 - RankIndex(l)
  {
    CreateLocation(7 - FileIndex(l), 7 - RankIndex(l)).value
  }

  /** Turning a square half a turn twice brings it back. */
  lemma RotatedInvolution()
    ensures forall l :: Rotated(Rotated(l)) == l
  {
    forall l ensures Rotated(Rotated(l)) == l {
      LocationByIndices(Rotated(Rotated(l)), l);
    }
  }

  /** The squares of s, each turned half a turn. */
  function RotatedAll(s: seq<Location>): (r: seq<Location>)
    ensures |r| == |s| && forall i :: 0 <= i < |s| ==> r[i] == Rotated(s[i])
  {
    seq(|s|, i requires 0 <= i < |s| => Rotated(s[i]))
  }

  /** r holds on each square what s holds on the opposite one. */
  ghost predicate RotatedFrom(r: Placement, s: Placement) {
    forall l :: Lookup(r, l) == Lookup(s, Rotated(l))
  }

  /** Two placements that agree on every square are the same. */
  lemma SamePlacement(a: Placement, b: Placement)
    requires forall l :: Lookup(a, l) == Lookup(b, l)
    ensures a == b
  {
    assert a.Keys == b.Keys by {
      forall l ensures l in a <==> l in b {
        assert Lookup(a, l) == Lookup(b, l);
      }
    }
    forall l | l in a ensures a[l] == b[l] {
      assert Lookup(a, l) == Lookup(b, l);
    }
  }

  /** A board index with no key is empty, and so is its key order. */
  lemma NothingPlaced(pl: Placement, o: seq<Location>)
    requires IsEnumeration(o, pl) && forall l :: Lookup(pl, l) == None
    ensures pl == map[] && o == []
  {
    forall l ensures Lookup(pl, l) == Lookup(map[], l) {
    }
    SamePlacement(pl, map[]);
    EnumerationSize(o, pl);
  }

  /** The rotation of a placement, taken twice, is the placement itself. */
  lemma RotateTwiceRestores(p0: Placement, p1: Placement, p2: Placement)
    requires RotatedFrom(p1, p0) && RotatedFrom(p2, p1)
    ensures p2 == p0
  {
    RotatedInvolution();
    forall l ensures Lookup(p2, l) == Lookup(p0, l) {
      assert Lookup(p2, l) == Lookup(p1, Rotated(l));
    }
    SamePlacement(p2, p0);
  }

  /** The rotation of a key order, taken twice, is the key order itself. */
  lemma RotateAllTwice(o: seq<Location>)
    ensures RotatedAll(RotatedAll(o)) == o
  {
    RotatedInvolution();
  }

  /** The inner loop of createEmptyBoard: the squares of file i cleared,
      ranks 1..8. */
  method ClearFile(board: Board, i: int)
    requires board.Valid() && 0 <= i < 8
    requires forall l :: FileIndex(l) < i ==> Lookup(board.pieceByLocation, l) == None
    modifies board, board.squares
    ensures board.Valid()
    ensures forall l :: FileIndex(l) <= i ==> Lookup(board.pieceByLocation, l) == None
  {
    var files, ranks := FilesInOrder, RanksInOrder;
    for j := 0 to |ranks|
      invariant board.Valid()
      invariant forall l :: FileIndex(l) < i || (FileIndex(l) == i && RankIndex(l) < j) ==> Lookup(board.pieceByLocation, l) == None
    {
      var location := Location(files[i], ranks[j]);
      FileIndexBijection(files[i], i);
      FileIndexBijection(files[i], j);
      assert FileIndex(location) == i && RankIndex(location) == j;
      ghost var before := board.pieceByLocation;
      board.SetPiece(location, None);
      forall l | FileIndex(l) < i || (FileIndex(l) == i && RankIndex(l) < j + 1)
        ensures Lookup(board.pieceByLocation, l) == None
      {
        if l != location {
          if FileIndex(l) == i && RankIndex(l) == j {
            LocationByIndices(l, location);
          }
          assert Lookup(before, l) == None;
        }
      }
    }
  }

  /** createEmptyBoard: a new board (which starts out holding the initial
      position) cleared square by square, files a..h, ranks 1..8. */
  method CreateEmptyBoard() returns (board: Board)
    ensures fresh(board) && fresh(board.squares) && board.Valid()
    ensures board.pieceByLocation == map[] && board.keyOrder == []
  {
    board := new Board();
    for i := 0 to |FilesInOrder|
      invariant board.Valid() && fresh(board.squares)
      invariant forall l :: FileIndex(l) < i ==> Lookup(board.pieceByLocation, l) == None
    {
      ClearFile(board, i);
    }
    NothingPlaced(board.pieceByLocation, board.keyOrder);
  }

  /** The placement the copy loop has built after the first i pieces of
      the key order: those pieces on their squares, nothing elsewhere. */
  ghost predicate CopiedUpTo(pl: Placement, source: Placement, pieces: seq<Location>, i: int)
    requires 0 <= i <= |pieces|
  {
    forall l :: Lookup(pl, l) == if l in pieces[..i] then Lookup(source, l) else None
  }

  /** Setting piece i of the key order on its own square extends the copy by
      that piece, and its key goes to the end of the copy's key order. */
  lemma CloneStep(source: Placement, pieces: seq<Location>, i: int, before: Placement, after: Placement)
    requires Distinct(pieces) && 0 <= i < |pieces| && pieces[i] in source
    requires CopiedUpTo(before, source, pieces, i)
    requires after == Placed(before, pieces[i], Some(source[pieces[i]]))
    ensures CopiedUpTo(after, source, pieces, i + 1)
    ensures Without(pieces[..i], pieces[i]) + [pieces[i]] == pieces[..i + 1]
  {
    var location := pieces[i];
    assert location !in pieces[..i];
    assert pieces[..i + 1] == pieces[..i] + [location];
    forall l ensures Lookup(after, l) == if l in pieces[..i + 1] then Lookup(source, l) else None {
      if l != location {
        assert Lookup(after, l) == Lookup(before, l);
      }
    }
  }

  /** cloneBoard: every piece of the source, in the source's key order, set
      on a fresh empty board.  The copy has the same pieces in the same key
      order, and the source is left as it was. */
  method CloneBoard(source: Board) returns (cloned: Board)
    requires source.Valid()
    ensures fresh(cloned) && fresh(cloned.squares) && cloned.Valid()
    ensures cloned.pieceByLocation == source.pieceByLocation
    ensures cloned.keyOrder == source.keyOrder
  {
    cloned := CreateEmptyBoard();
    var pieces := source.GetAllPieces(None);
    for i := 0 to |pieces|
      invariant cloned.Valid() && fresh(cloned.squares)
      invariant cloned.keyOrder == pieces[..i]
      invariant CopiedUpTo(cloned.pieceByLocation, source.pieceByLocation, pieces, i)
    {
      var location := pieces[i];
      assert location in pieces;
      ghost var before := cloned.pieceByLocation;
      cloned.SetPiece(location, Some(source.pieceByLocation[location]));
      CloneStep(source.pieceByLocation, pieces, i, before, cloned.pieceByLocation);
    }
    assert pieces[..|pieces|] == pieces;
    SamePlacement(cloned.pieceByLocation, source.pieceByLocation);
  }

  /** The placement the rotation loop has built after the first i pieces of
      the key order: each of those pieces on its opposite square, nothing
      elsewhere. */
  ghost predicate RotatedUpTo(pl: Placement, source: Placement, pieces: seq<Location>, i: int)
    requires 0 <= i <= |pieces|
  {
    forall l :: Lookup(pl, l) == if Rotated(l) in pieces[..i] then Lookup(source, Rotated(l)) else None
  }

  /** Setting piece i of the key order on the opposite square extends the
      rotation by that piece, and the opposite square's key goes to the end of
      the rotation's key order. */
  lemma RotateStep(source: Placement, pieces: seq<Location>, i: int, before: Placement, after: Placement)
    requires Distinct(pieces) && 0 <= i < |pieces| && pieces[i] in source
    requires RotatedUpTo(before, source, pieces, i)
    requires after == Placed(before, Rotated(pieces[i]), Some(source[pieces[i]]))
    ensures RotatedUpTo(after, source, pieces, i + 1)
    ensures Without(RotatedAll(pieces[..i]), Rotated(pieces[i])) + [Rotated(pieces[i])] == RotatedAll(pieces[..i + 1])
  {
    var location, newLocation := pieces[i], Rotated(pieces[i]);
    RotatedInvolution();
    assert newLocation !in RotatedAll(pieces[..i]) by {
      forall k | 0 <= k < i ensures Rotated(pieces[k]) != newLocation {
        assert Rotated(Rotated(pieces[k])) == pieces[k];
      }
    }
    assert pieces[..i + 1] == pieces[..i] + [location];
    assert RotatedAll(pieces[..i + 1]) == RotatedAll(pieces[..i]) + [newLocation];
    forall l ensures Lookup(after, l) == if Rotated(l) in pieces[..i + 1] then Lookup(source, Rotated(l)) else None {
      if l != newLocation {
        assert Rotated(l) != location by {
          assert Rotated(Rotated(l)) == l;
        }
        assert Lookup(after, l) == Lookup(before, l);
      }
    }
  }

  /** rotateBoard180: every piece of the source, in the source's key order,
      set on the opposite square of a fresh empty board; the opposite square
      is found by the indices of the file and the rank counted from the other
      end. */
  method RotateBoard180(source: Board) returns (rotated: Board)
    requires source.Valid()
    ensures fresh(rotated) && fresh(rotated.squares) && rotated.Valid()
    ensures RotatedFrom(rotated.pieceByLocation, source.pieceByLocation)
    ensures rotated.keyOrder == RotatedAll(source.keyOrder)
    ensures |rotated.pieceByLocation| == |source.pieceByLocation|
  {
    rotated := CreateEmptyBoard();
    var pieces := source.GetAllPieces(None);
    var files, ranks := FilesInOrder, RanksInOrder;
    for i := 0 to |pieces|
      invariant rotated.Valid() && fresh(rotated.squares)
      invariant rotated.keyOrder == RotatedAll(pieces[..i])
      invariant RotatedUpTo(rotated.pieceByLocation, source.pieceByLocation, pieces, i)
    {
      var location := pieces[i];
      assert location in pieces;
      var fileIndex, rankIndex := FileIndex(location), RankIndex(location);
      var newLocation := Location(files[|files| - 1 - fileIndex], ranks[|ranks| - 1 - rankIndex]);
      FileIndexBijection(location.file, 7 - fileIndex);
      LocationByIndices(newLocation, Rotated(location));
      ghost var before := rotated.pieceByLocation;
      rotated.SetPiece(newLocation, Some(source.pieceByLocation[location]));
      RotateStep(source.pieceByLocation, pieces, i, before, rotated.pieceByLocation);
    }
    assert pieces[..|pieces|] == pieces;
    forall l ensures Lookup(rotated.pieceByLocation, l) == Lookup(source.pieceByLocation, Rotated(l)) {
      assert Rotated(l) in pieces <==> Rotated(l) in source.pieceByLocation;
    }
    EnumerationSize(rotated.keyOrder, rotated.pieceByLocation);
    EnumerationSize(source.keyOrder, source.pieceByLocation);
  }

  /** Turning a board half a turn twice gives the board cloneBoard would
      give: the same pieces on the same squares, in the same key order. */
  lemma RotateTwiceIsClone(source: Placement, once: Placement, twice: Placement, sourceKeys: seq<Location>, twiceKeys: seq<Location>)
    requires RotatedFrom(once, source) && RotatedFrom(twice, once)
    requires twiceKeys == RotatedAll(RotatedAll(sourceKeys))
    ensures twice == source && twiceKeys == sourceKeys
  {
    RotateTwiceRestores(source, once, twice);
    RotateAllTwice(sourceKeys);
  }
}
