/** The board of engine/board.ts: 64 squares in an array, the index from
    location to piece, and the insertion order of that index's keys (the order
    in which getAllPieces and isLocationAttacked visit the pieces).  Every
    query is proved equal to the pure functions of module Geometry. */
module Boards {
  import opened Types
  import opened Collections
  import opened Geometry

  /** getPieceByLocation on a placement. */
  function Lookup(pl: Placement, l: Location): (r: Option<Piece>)
    ensures r.Some? <==> l in pl
    ensures r.Some? ==> r.value == pl[l]
  {
    if l in pl then Some(pl[l]) else None
  }

  /** The placement after putting p (or nothing) on l. */
  function Placed(pl: Placement, l: Location, p: Option<Piece>): (r: Placement)
    ensures Lookup(r, l) == p
    ensures forall m :: m != l ==> Lookup(r, m) == Lookup(pl, m)
  {
    if p.Some? then pl[l := p.value] else pl - {l}
  }

  /** The colour of the square at l: dark where the file and rank indices
      add up to an even number. */
  function LocationColor(l: Location): Color {
    if (FileIndex(l) + RankIndex(l)) % 2 == 0 then Black else White
  }

  /** initSquares: square i is empty and coloured by its indices. */
  function InitialSquare(i: int): (sq: Square)
    requires 0 <= i < 64
    ensures sq.location == LocationOfIndex(i)
  {
    var fileIndex, rankIndex := i % 8, i / 8;
    Square(CreateLocation(fileIndex, rankIndex).value, None, if (fileIndex + rankIndex) % 2 == 0 then Black else White)
  }

  /** The squares agree with the placement, location by location. */
  ghost predicate SquaresMatch(sq: seq<Square>, pl: Placement) {
    |sq| == 64 && forall l {:trigger SquareIndex(l)} :: sq[SquareIndex(l)] == Square(l, Lookup(pl, l), LocationColor(l))
  }

  /** The freshly initialised squares describe the empty board. */
  lemma InitialSquaresMatch(sq: seq<Square>)
    requires |sq| == 64 && forall i :: 0 <= i < 64 ==> sq[i] == InitialSquare(i)
    ensures SquaresMatch(sq, map[])
  {
    forall l ensures sq[SquareIndex(l)] == Square(l, Lookup(map[], l), LocationColor(l)) {
      var f, r, i := FileIndex(l), RankIndex(l), SquareIndex(l);
      RowMajor(f, r);
      assert i % 8 == f && i / 8 == r;
      LocationByIndices(l, CreateLocation(f, r).value);
      assert sq[i] == Square(CreateLocation(f, r).value, None, if (f + r) % 2 == 0 then Black else White);
    }
  }

  lemma RowMajor(f: int, r: int)
    requires 0 <= f < 8 && 0 <= r < 8
    ensures (r * 8 + f) % 8 == f && (r * 8 + f) / 8 == r
  {
  }

  /** Writing the one square that changes keeps the squares in step with the
      placement. */
  lemma SquaresMatchUpdate(sq: seq<Square>, pl: Placement, l: Location, p: Option<Piece>)
    requires SquaresMatch(sq, pl)
    ensures SquaresMatch(sq[SquareIndex(l) := sq[SquareIndex(l)].(piece := p)], Placed(pl, l, p))
  {
    var idx := SquareIndex(l);
    var sq' := sq[idx := sq[idx].(piece := p)];
    var pl' := Placed(pl, l, p);
    forall m ensures sq'[SquareIndex(m)] == Square(m, Lookup(pl', m), LocationColor(m)) {
      if SquareIndex(m) == idx {
        SquareIndexInjective(m, l);
      }
    }
  }

  // ------------------------------------------------------ initial position

  const WhiteBackRank: seq<PieceType> := [Rook, Knight, Bishop, Queen, King, Bishop, Knight, Rook]
  const BlackBackRank: seq<PieceType> := [Rook, Knight, Bishop, King, Queen, Bishop, Knight, Rook]

  function FileAt(i: int): (f: File)
    requires 0 <= i < 8
    ensures FileToIndex(f) == i
  {
    (('a' as int) + i) as char
  }

  /** The piece initPieces puts on l: the back ranks, then a row of pawns in
      front of each. */
  function InitialPieceAt(l: Location): Option<Piece> {
    var fi := FileIndex(l);
    if l.rank == 1 then Some(Piece(White, WhiteBackRank[fi]))
    else if l.rank == 2 then Some(Piece(White, Pawn))
    else if l.rank == 7 then Some(Piece(Black, Pawn))
    else if l.rank == 8 then Some(Piece(Black, BlackBackRank[fi]))
    else None
  }

  /** The keys initPieces writes in its first n rounds, in order. */
  function InitialKeys(n: nat): (r: seq<Location>)
    requires n <= 8
    ensures |r| == 4 * n
  {
    if n == 0 then []
    else
      var f := FileAt(n - 1);
      InitialKeys(n - 1) + [Location(f, 1), Location(f, 8), Location(f, 2), Location(f, 7)]
  }

  /** The placement after the first n rounds of initPieces. */
  function InitialUpTo(n: int, l: Location): Option<Piece> {
    if FileIndex(l) < n then InitialPieceAt(l) else None
  }

  /** One round of initPieces adds the four pieces of file n to the index. */
  lemma InitialRoundPieces(pl: Placement, n: int)
    requires 0 <= n < 8
    requires forall l :: Lookup(pl, l) == InitialUpTo(n, l)
    ensures var f := FileAt(n);
            var pl' := pl[Location(f, 1) := Piece(White, WhiteBackRank[n])][Location(f, 2) := Piece(White, Pawn)]
                         [Location(f, 7) := Piece(Black, Pawn)][Location(f, 8) := Piece(Black, BlackBackRank[n])];
            forall l :: Lookup(pl', l) == InitialUpTo(n + 1, l)
  {
    var f := FileAt(n);
    var pl' := pl[Location(f, 1) := Piece(White, WhiteBackRank[n])][Location(f, 2) := Piece(White, Pawn)]
                 [Location(f, 7) := Piece(Black, Pawn)][Location(f, 8) := Piece(Black, BlackBackRank[n])];
    forall l ensures Lookup(pl', l) == InitialUpTo(n + 1, l) {
      if FileIndex(l) == n {
        LocationByIndices(l, Location(f, l.rank));
        assert l == Location(f, l.rank);
        if 3 <= l.rank <= 6 {
          assert Lookup(pl, l) == None;
          assert l !in pl';
        }
      } else {
        assert FileIndex(Location(f, 1)) == n;
        assert l != Location(f, 1) && l != Location(f, 2) && l != Location(f, 7) && l != Location(f, 8);
        assert Lookup(pl', l) == Lookup(pl, l);
        assert InitialUpTo(n, l) == InitialUpTo(n + 1, l);
      }
    }
  }

  /** ... writes their four squares ... */
  lemma InitialRoundSquares(sq: seq<Square>, pl: Placement, n: int)
    requires 0 <= n < 8 && SquaresMatch(sq, pl)
    ensures var f := FileAt(n);
            var w, b := Piece(White, WhiteBackRank[n]), Piece(Black, BlackBackRank[n]);
            var wp, bp := Piece(White, Pawn), Piece(Black, Pawn);
            SquaresMatch(sq[n := sq[n].(piece := Some(w))][n + 8 := sq[n + 8].(piece := Some(wp))]
                           [n + 48 := sq[n + 48].(piece := Some(bp))][n + 56 := sq[n + 56].(piece := Some(b))],
                         pl[Location(f, 1) := w][Location(f, 2) := wp][Location(f, 7) := bp][Location(f, 8) := b])
  {
    var f := FileAt(n);
    var w, b := Piece(White, WhiteBackRank[n]), Piece(Black, BlackBackRank[n]);
    var wp, bp := Piece(White, Pawn), Piece(Black, Pawn);
    var sq1 := sq[n := sq[n].(piece := Some(w))];
    SquaresMatchUpdate(sq, pl, Location(f, 1), Some(w));
    var sq2 := sq1[n + 8 := sq1[n + 8].(piece := Some(wp))];
    SquaresMatchUpdate(sq1, pl[Location(f, 1) := w], Location(f, 2), Some(wp));
    var sq3 := sq2[n + 48 := sq2[n + 48].(piece := Some(bp))];
    SquaresMatchUpdate(sq2, pl[Location(f, 1) := w][Location(f, 2) := wp], Location(f, 7), Some(bp));
    SquaresMatchUpdate(sq3, pl[Location(f, 1) := w][Location(f, 2) := wp][Location(f, 7) := bp], Location(f, 8), Some(b));
  }

  /** ... and their keys to the key order. */
  lemma InitialRoundKeys(pl: Placement, o: seq<Location>, n: int)
    requires 0 <= n < 8
    requires forall l :: Lookup(pl, l) == InitialUpTo(n, l)
    requires o == InitialKeys(n) && IsEnumeration(o, pl)
    ensures var f := FileAt(n);
            var pl' := pl[Location(f, 1) := Piece(White, WhiteBackRank[n])][Location(f, 2) := Piece(White, Pawn)]
                         [Location(f, 7) := Piece(Black, Pawn)][Location(f, 8) := Piece(Black, BlackBackRank[n])];
            IsEnumeration(o + [Location(f, 1), Location(f, 8), Location(f, 2), Location(f, 7)], pl')
  {
    var f := FileAt(n);
    var added := [Location(f, 1), Location(f, 8), Location(f, 2), Location(f, 7)];
    InitialKeysFiles(n);
    var o' := o + added;
    forall i, j | 0 <= i < j < |o'| ensures o'[i] != o'[j] {
      if j >= |o| && i < |o| {
        assert o'[i] in o;
      }
    }
  }

  /** The keys of the first n rounds lie on the first n files. */
  lemma {:induction false} InitialKeysFiles(n: nat)
    requires n <= 8
    ensures forall l :: l in InitialKeys(n) ==> FileIndex(l) < n
  {
    if n > 0 {
      InitialKeysFiles(n - 1);
    }
  }

  // ------------------------------------------------------------ piece lists

  predicate HasColor(p: Piece, color: Option<Color>) {
    color.None? || p.color == color.value
  }

  /** getAllPieces: the locations of o whose piece matches the colour filter,
      in the order of o. */
  function PiecesOf(pl: Placement, o: seq<Location>, color: Option<Color>): (r: seq<Location>)
    requires forall l :: l in o ==> l in pl
    ensures forall l :: l in r <==> l in o && HasColor(pl[l], color)
    ensures Distinct(o) ==> Distinct(r)
    ensures color.None? ==> r == o
    decreases |o|
  {
    if o == [] then []
    else
      var n := |o| - 1;
      assert o == o[..n] + [o[n]];
      var prev := PiecesOf(pl, o[..n], color);
      if HasColor(pl[o[n]], color) then prev + [o[n]] else prev
  }

  /** getCapturablePieces: the opponent pieces standing on the first k of
      the given target squares, in order. */
  function CapturesAmong(pl: Placement, targets: seq<Location>, c: Color, k: nat): (r: seq<Piece>)
    requires k <= |targets|
  {
    if k == 0 then []
    else
      var prev := CapturesAmong(pl, targets, c, k - 1);
      match Lookup(pl, targets[k - 1])
      case Some(t) => if t.color != c then prev + [t] else prev
      case None => prev
  }

  /** A captured piece is an opponent piece on one of the targets, and every
      opponent piece on a target is captured. */
  lemma {:induction false} CapturesAmongMembership(pl: Placement, targets: seq<Location>, c: Color, k: nat, p: Piece)
    requires k <= |targets|
    ensures p in CapturesAmong(pl, targets, c, k) <==>
            p.color != c && exists i :: 0 <= i < k && Lookup(pl, targets[i]) == Some(p)
  {
    if k > 0 {
      CapturesAmongMembership(pl, targets, c, k - 1, p);
    }
  }

  // ------------------------------------------------------------- the board

  class Board {
    const squares: array<Square>
    var pieceByLocation: Placement
    var keyOrder: seq<Location>

    /** The squares and the index describe the same position, and keyOrder
        lists the index's keys once each. */
    ghost predicate Valid()
      reads this, squares
    {
      squares.Length == 64
      && SquaresMatch(squares[..], pieceByLocation)
      && IsEnumeration(keyOrder, pieceByLocation)
    }

    /** initSquares then initPieces: 32 pieces in the starting position. */
    constructor()
      ensures Valid() && fresh(squares)
      ensures forall l :: Lookup(pieceByLocation, l) == InitialPieceAt(l)
      ensures keyOrder == InitialKeys(8)
      ensures |pieceByLocation| == 32
    {
      squares := new Square[64](i requires 0 <= i < 64 => InitialSquare(i));
      pieceByLocation := map[];
      keyOrder := [];
      new;
      InitialSquaresMatch(squares[..]);
      InitPieces();
      EnumerationSize(keyOrder, pieceByLocation);
    }

    /** initPieces: for each file, the two back-rank pieces and the two pawns. */
    method InitPieces()
      requires squares.Length == 64 && SquaresMatch(squares[..], map[])
      requires pieceByLocation == map[] && keyOrder == []
      modifies this, squares
      ensures Valid()
      ensures forall l :: Lookup(pieceByLocation, l) == InitialPieceAt(l)
      ensures keyOrder == InitialKeys(8)
    {
      for i := 0 to 8
        invariant SquaresMatch(squares[..], pieceByLocation)
        invariant forall l :: Lookup(pieceByLocation, l) == InitialUpTo(i, l)
        invariant keyOrder == InitialKeys(i)
        invariant IsEnumeration(keyOrder, pieceByLocation)
      {
        var file := FileAt(i);
        var white, black := Location(file, 1), Location(file, 8);
        var whitePawn, blackPawn := Location(file, 2), Location(file, 7);
        var w, b := Piece(White, WhiteBackRank[i]), Piece(Black, BlackBackRank[i]);
        var wp, bp := Piece(White, Pawn), Piece(Black, Pawn);
        ghost var pl := pieceByLocation;
        InitialRoundPieces(pl, i);
        InitialRoundKeys(pl, keyOrder, i);
        ghost var sq := squares[..];
        InitialRoundSquares(sq, pl, i);
        squares[i] := squares[i].(piece := Some(w));
        squares[i + 8] := squares[i + 8].(piece := Some(wp));
        squares[i + 48] := squares[i + 48].(piece := Some(bp));
        squares[i + 56] := squares[i + 56].(piece := Some(b));
        assert squares[..] == sq[i := sq[i].(piece := Some(w))][i + 8 := sq[i + 8].(piece := Some(wp))]
                                [i + 48 := sq[i + 48].(piece := Some(bp))][i + 56 := sq[i + 56].(piece := Some(b))];
        pieceByLocation := pieceByLocation[white := w][whitePawn := wp][blackPawn := bp][black := b];
        keyOrder := keyOrder + [white, black, whitePawn, blackPawn];
      }
    }

    /** getAllPieces(color): the locations of the pieces of that colour (of
        every colour for None), in key order. */
    function GetAllPieces(color: Option<Color>): (r: seq<Location>)
      reads this, squares
      requires Valid()
      ensures forall l :: l in r <==> l in pieceByLocation && HasColor(pieceByLocation[l], color)
      ensures Distinct(r)
    {
      PiecesOf(pieceByLocation, keyOrder, color)
    }

    /** setPiece: l now holds p (or nothing); its key moves to the end of the
        key order, or out of it. */
    method SetPiece(l: Location, p: Option<Piece>)
      requires Valid()
      modifies this, squares
      ensures Valid()
      ensures pieceByLocation == Placed(old(pieceByLocation), l, p)
      ensures p.Some? ==> keyOrder == Without(old(keyOrder), l) + [l]
      ensures p.None? ==> keyOrder == Without(old(keyOrder), l)
    {
      var index := SquareIndex(l);
      var existing := squares[index].piece;
      SquaresMatchUpdate(squares[..], pieceByLocation, l, p);
      ghost var pl := pieceByLocation;
      if existing.Some? {
        pieceByLocation := pieceByLocation - {l};
        keyOrder := Without(keyOrder, l);
      }
      squares[index] := squares[index].(piece := p);
      if p.Some? {
        EnumerationMoveToEnd(old(keyOrder), pl, l, p.value);
        assert pieceByLocation[l := p.value] == pl[l := p.value];
        pieceByLocation := pieceByLocation[l := p.value];
        keyOrder := keyOrder + [l];
      } else {
        EnumerationMoveToEnd(old(keyOrder), pl, l, Piece(White, Pawn));
        assert pieceByLocation == pl - {l};
      }
    }

    /** movePiece: the piece on `from` goes to `destination`; what stood there
        is returned as captured.  Nothing happens when `from` is empty. */
    method MovePiece(from: Location, destination: Location) returns (captured: Option<Piece>)
      requires Valid()
      modifies this, squares
      ensures Valid()
      ensures from !in old(pieceByLocation) ==>
                captured.None? && pieceByLocation == old(pieceByLocation) && keyOrder == old(keyOrder)
      ensures from in old(pieceByLocation) ==>
                captured == Lookup(old(pieceByLocation), destination)
                && pieceByLocation == (old(pieceByLocation) - {from})[destination := old(pieceByLocation)[from]]
                && keyOrder == Without(Without(old(keyOrder), from), destination) + [destination]
    {
      if from !in pieceByLocation {
        return None;
      }
      var piece := pieceByLocation[from];
      captured := Lookup(pieceByLocation, destination);
      SetPiece(from, None);
      SetPiece(destination, Some(piece));
    }

    /** changePieceType: the piece on l becomes a piece of type t; the key
        order is untouched. */
    method ChangePieceType(l: Location, t: PieceType)
      requires Valid()
      modifies squares, this
      ensures Valid() && keyOrder == old(keyOrder)
      ensures l in old(pieceByLocation) ==>
                pieceByLocation == old(pieceByLocation)[l := Piece(old(pieceByLocation)[l].color, t)]
      ensures l !in old(pieceByLocation) ==> pieceByLocation == old(pieceByLocation)
    {
      if l in pieceByLocation {
        var p := Piece(pieceByLocation[l].color, t);
        var index := SquareIndex(l);
        SquaresMatchUpdate(squares[..], pieceByLocation, l, Some(p));
        squares[index] := squares[index].(piece := Some(p));
        pieceByLocation := pieceByLocation[l := p];
      }
    }

    /** The knight and king loop of getMovableLocations. */
    method JumpMoves(c: Color, fi: int, ri: int, offsets: seq<Offset>) returns (moves: seq<Location>)
      ensures moves == JumpTargets(pieceByLocation, fi, ri, c, offsets, |offsets|)
    {
      moves := [];
      for k := 0 to |offsets|
        invariant moves == JumpTargets(pieceByLocation, fi, ri, c, offsets, k)
      {
        var o := offsets[k];
        var target := CreateLocation(fi + o.df, ri + o.dr);
        if target.None? || OccupiedByOwn(pieceByLocation, target.value, c) {
          continue;
        }
        moves := moves + [target.value];
      }
    }

    /** generateSlidingMoves: walk each direction until the edge, an own
        piece (excluded) or an opponent piece (included). */
    method GenerateSlidingMoves(c: Color, from: Location, directions: seq<Direction>) returns (moves: seq<Location>)
      ensures moves == SlidingMoves(pieceByLocation, FileIndex(from), RankIndex(from), c, directions, |directions|)
    {
      var fi, ri := FileIndex(from), RankIndex(from);
      moves := [];
      for k := 0 to |directions|
        invariant moves == SlidingMoves(pieceByLocation, fi, ri, c, directions, k)
      {
        var d := directions[k];
        var ray := WalkRay(c, fi + d.df, ri + d.dr, d);
        moves := moves + ray;
      }
    }

    /** The inner loop of generateSlidingMoves: the squares of one ray. */
    method WalkRay(c: Color, f0: int, r0: int, d: Direction) returns (ray: seq<Location>)
      ensures ray == Ray(pieceByLocation, c, f0, r0, d)
    {
      var pl := pieceByLocation;
      var fileIndex, rankIndex := f0, r0;
      ray := [];
      while true
        invariant Ray(pl, c, f0, r0, d) == ray + Ray(pl, c, fileIndex, rankIndex, d)
        decreases StepsToEdge(fileIndex, d.df) + StepsToEdge(rankIndex, d.dr)
      {
        var next := CreateLocation(fileIndex, rankIndex);
        AppendEmpty(ray);
        if next.None? {
          break;
        }
        var l := next.value;
        if OccupiedByOwn(pl, l, c) {
          break;
        }
        ghost var rest := Ray(pl, c, fileIndex + d.df, rankIndex + d.dr, d);
        ghost var before := ray;
        ray := ray + [l];
        if OccupiedByOpponent(pl, l, c) {
          break;
        }
        AppendOne(before, l, rest);
        fileIndex, rankIndex := fileIndex + d.df, rankIndex + d.dr;
      }
    }

    /** getMovableLocations for the piece standing on `from` (none for an
        empty square). */
    method GetMovableLocations(from: Location) returns (moves: seq<Location>)
      ensures from in pieceByLocation ==> moves == MovableLocations(pieceByLocation, from, pieceByLocation[from])
      ensures from !in pieceByLocation ==> moves == []
    {
      if from !in pieceByLocation {
        return [];
      }
      var piece := pieceByLocation[from];
      var fi, ri := FileIndex(from), RankIndex(from);
      match piece.kind {
        case Pawn =>
          moves := PawnMoveList(piece.color, from);
        case Knight =>
          moves := JumpMoves(piece.color, fi, ri, KnightOffsets);
        case Bishop =>
          moves := GenerateSlidingMoves(piece.color, from, BishopDirections);
        case Rook =>
          moves := GenerateSlidingMoves(piece.color, from, RookDirections);
        case Queen =>
          moves := GenerateSlidingMoves(piece.color, from, QueenDirections);
        case King =>
          moves := JumpMoves(piece.color, fi, ri, KingOffsets);
      }
    }

    /** The pawn case of getMovableLocations: the advances, then the two
        diagonal captures. */
    method PawnMoveList(c: Color, from: Location) returns (moves: seq<Location>)
      ensures moves == PawnMoves(pieceByLocation, from, c)
    {
      var pl := pieceByLocation;
      var fi, ri := FileIndex(from), RankIndex(from);
      var direction := PawnDirection(c);
      moves := [];
      var oneStep := CreateLocation(fi, ri + direction);
      if oneStep.Some? && oneStep.value !in pl {
        moves := moves + [oneStep.value];
        if from.rank == StartRank(c) {
          var twoStep := CreateLocation(fi, ri + 2 * direction);
          if twoStep.Some? && twoStep.value !in pl {
            moves := moves + [twoStep.value];
          }
        }
      }
      assert moves == PawnAdvances(pl, from, c);
      ghost var advances := moves;
      var captureOffsets := PawnCaptureOffsets;
      for k := 0 to |captureOffsets|
        invariant moves == advances + PawnCaptures(pl, fi, ri + direction, c, captureOffsets, k)
      {
        var target := CreateLocation(fi + captureOffsets[k], ri + direction);
        if target.Some? && OccupiedByOpponent(pl, target.value, c) {
          moves := moves + [target.value];
        }
      }
    }

    /** getCapturablePieces: the opponent pieces on the squares the piece on
        `from` can move to. */
    method GetCapturablePieces(from: Location) returns (result: seq<Piece>)
      requires from in pieceByLocation
      ensures result == CapturesAmong(pieceByLocation, MovableLocations(pieceByLocation, from, pieceByLocation[from]),
                                      pieceByLocation[from].color, |MovableLocations(pieceByLocation, from, pieceByLocation[from])|)
    {
      var c := pieceByLocation[from].color;
      var moves := GetMovableLocations(from);
      result := [];
      for k := 0 to |moves|
        invariant result == CapturesAmong(pieceByLocation, moves, c, k)
      {
        var target := Lookup(pieceByLocation, moves[k]);
        if target.Some? && target.value.color != c {
          result := result + [target.value];
        }
      }
    }

    /** The walk of the bishop and rook cases: the squares from (f, r) up to
        the target in steps of (sf, sr) are on the board and empty. */
    method WalkIsClear(f0: int, r0: int, tf: int, tr: int, sf: int, sr: int) returns (clear: bool)
      requires sf != 0 || sr != 0 || (f0 == tf && r0 == tr)
      ensures clear == ClearPath(pieceByLocation, f0, r0, tf, tr, sf, sr)
    {
      var f, r := f0, r0;
      while f != tf || r != tr
        invariant sf != 0 || sr != 0 || (f == tf && r == tr)
        invariant ClearPath(pieceByLocation, f, r, tf, tr, sf, sr) == ClearPath(pieceByLocation, f0, r0, tf, tr, sf, sr)
        decreases StepsToEdge(f, sf) + StepsToEdge(r, sr)
      {
        var between := CreateLocation(f, r);
        if between.None? || between.value in pieceByLocation {
          return false;
        }
        f, r := f + sf, r + sr;
      }
      return true;
    }

    /** canPieceAttackLocation for `attacker` standing on `from`. */
    method CanPieceAttackLocation(attacker: Piece, from: Location, target: Location) returns (r: bool)
      ensures r == CanAttack(pieceByLocation, from, attacker, target)
      decreases if attacker.kind == Queen then 1 else 0
    {
      var fi, ri := FileIndex(from), RankIndex(from);
      var tf, tr := FileIndex(target), RankIndex(target);
      var df, dr := tf - fi, tr - ri;
      match attacker.kind {
        case Pawn =>
          r := dr == PawnDirection(attacker.color) && Abs(df) == 1;
        case Knight =>
          r := (Abs(df) == 1 && Abs(dr) == 2) || (Abs(df) == 2 && Abs(dr) == 1);
        case Bishop =>
          if Abs(df) != Abs(dr) {
            return false;
          }
          var stepF := if df > 0 then 1 else -1;
          var stepR := if dr > 0 then 1 else -1;
          r := WalkIsClear(fi + stepF, ri + stepR, tf, tr, stepF, stepR);
        case Rook =>
          if df != 0 && dr != 0 {
            return false;
          }
          var stepF := Sign(df);
          var stepR := Sign(dr);
          r := WalkIsClear(fi + stepF, ri + stepR, tf, tr, stepF, stepR);
        case Queen =>
          var bishopLike := false;
          if Abs(df) == Abs(dr) {
            bishopLike := CanPieceAttackLocation(Piece(attacker.color, Bishop), from, target);
          }
          var rookLike := false;
          if df == 0 || dr == 0 {
            rookLike := CanPieceAttackLocation(Piece(attacker.color, Rook), from, target);
          }
          r := bishopLike || rookLike;
        case King =>
          r := Max(Abs(df), Abs(dr)) == 1;
      }
    }

    /** isLocationAttacked: some piece of colour byColor attacks the target. */
    method IsLocationAttacked(target: Location, byColor: Color) returns (r: bool)
      requires Valid()
      ensures r == IsAttacked(pieceByLocation, target, byColor)
    {
      var pieces := keyOrder;
      for i := 0 to |pieces|
        invariant forall j :: 0 <= j < i ==>
                    !(pieceByLocation[pieces[j]].color == byColor
                      && CanAttack(pieceByLocation, pieces[j], pieceByLocation[pieces[j]], target))
      {
        var l := pieces[i];
        var piece := pieceByLocation[l];
        if piece.color != byColor {
          continue;
        }
        var attacks := CanPieceAttackLocation(piece, l, target);
        if attacks {
          return true;
        }
      }
      forall l | l in pieceByLocation && pieceByLocation[l].color == byColor
        ensures !CanAttack(pieceByLocation, l, pieceByLocation[l], target)
      {
        var j :| 0 <= j < |pieces| && pieces[j] == l;
      }
      return false;
    }
  }
}
