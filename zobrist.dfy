/** Zobrist position hashing (src/lib/zobristHash.ts): a seeded xorshift32
    generator fills a 12 x 64 table of piece-on-square keys and one
    side-to-move key; a position hashes to the exclusive-or of the keys of
    its pieces, and of the side key when Black is to move.  JavaScript's
    `^`, `<<` and `>>>` act on 32-bit patterns, so every value here is a
    bv32. */
module Zobrist {
  import opened Types
  import opened Collections
  import opened Geometry
  import opened Boards

  const BoardSize: int := 64
  const NumPieceKinds: int := 12
  const SeedValue: bv32 := 0x1234_5678

  // -------------------------------------------------------- the generator

  /** The three steps of random32: the state is xored with itself shifted
      left by 13, then right (logically) by 17, then left by 5, all on 32
      bits. */
  function XorShl13(s: bv32): bv32 {
    s ^ (s << 13)
  }

  function XorShr17(s: bv32): bv32 {
    s ^ (s >> 17)
  }

  function XorShl5(s: bv32): bv32 {
    s ^ (s << 5)
  }

  /** One step of Marsaglia's xorshift32 with shifts 13, 17 and 5. */
  function XorShift(s: bv32): bv32 {
    XorShl5(XorShr17(XorShl13(s)))
  }

  /** The state after n draws from `seed`; the n-th draw returns it. */
  function Draw(seed: bv32, n: nat): bv32 {
    if n == 0 then seed else XorShift(Draw(seed, n - 1))
  }

  lemma XorShl13Injective(s: bv32, t: bv32)
    ensures XorShl13(s) == XorShl13(t) ==> s == t
  {
  }

  lemma XorShl5Injective(s: bv32, t: bv32)
    ensures XorShl5(s) == XorShl5(t) ==> s == t
  {
  }

  /** A right shift by more than half the width is undone by itself. */
  lemma XorShr17Involution(s: bv32)
    ensures XorShr17(XorShr17(s)) == s
  {
    var a := s >> 17;
    ShiftDistributes(s, a);
    assert (s >> 17) >> 17 == 0;
    assert XorShr17(s) >> 17 == a ^ 0;
    XorCancel(s, a);
  }

  lemma ShiftDistributes(a: bv32, b: bv32)
    ensures (a ^ b) >> 17 == (a >> 17) ^ (b >> 17)
  {
  }

  lemma XorCancel(s: bv32, a: bv32)
    ensures (s ^ a) ^ (a ^ 0) == s
  {
  }

  /** The step is a bijection of the 32-bit states: no two states share a
      successor, and the zero state is the only one that maps to zero. */
  lemma XorShiftInjective(s: bv32, t: bv32)
    ensures XorShift(s) == XorShift(t) ==> s == t
    ensures XorShift(s) == 0 <==> s == 0
  {
    XorShl13Injective(s, t);
    XorShr17Involution(XorShl13(s));
    XorShr17Involution(XorShl13(t));
    XorShl5Injective(XorShr17(XorShl13(s)), XorShr17(XorShl13(t)));
    XorShl13Injective(s, 0);
    XorShr17Involution(0);
    XorShl5Injective(XorShr17(XorShl13(s)), 0);
  }

  /** The closure state of createSeededRandom32. */
  class Random32 {
    var state: bv32

    constructor(seed: bv32)
      ensures state == seed
    {
      state := seed;
    }

    /** random32: advance the state one xorshift step and return it. */
    method Next() returns (r: bv32)
      modifies this
      ensures state == XorShift(old(state)) && r == state
    {
      state := XorShl13(state);
      state := XorShr17(state);
      state := XorShl5(state);
      r := state;
    }
  }

  // ------------------------------------------------------------- the keys

  datatype ZobristKeys = ZobristKeys(pieces: seq<seq<bv32>>, side: bv32)

  /** A table of 12 rows of 64 keys. */
  type Keys = k: ZobristKeys | |k.pieces| == 12 && forall i :: 0 <= i < 12 ==> |k.pieces[i]| == 64
    witness ZobristKeys(seq(12, _ => seq(64, _ => 0)), 0)

  /** The keys drawn from `seed`: row i of the piece table holds draws
      64 i + 1 .. 64 i + 64, and the side key is draw 769. */
  ghost predicate KeysFromSeed(keys: ZobristKeys, seed: bv32) {
    |keys.pieces| == 12
    && (forall i :: 0 <= i < 12 ==> |keys.pieces[i]| == 64)
    && (forall i, j :: 0 <= i < 12 && 0 <= j < 64 ==> keys.pieces[i][j] == Draw(seed, 64 * i + j + 1))
    && keys.side == Draw(seed, 769)
  }

  /** createPieceTable: 12 rows, each filled by 64 consecutive draws. */
  method CreatePieceTable(rng: Random32) returns (table: seq<seq<bv32>>)
    modifies rng
    ensures |table| == 12
    ensures forall i :: 0 <= i < 12 ==> |table[i]| == 64
    ensures forall i, j :: 0 <= i < 12 && 0 <= j < 64 ==> table[i][j] == Draw(old(rng.state), 64 * i + j + 1)
    ensures rng.state == Draw(old(rng.state), 768)
  {
    ghost var seed := rng.state;
    table := [];
    for i := 0 to NumPieceKinds
      invariant |table| == i
      invariant forall a :: 0 <= a < i ==> |table[a]| == 64
      invariant forall a, j :: 0 <= a < i && 0 <= j < 64 ==> table[a][j] == Draw(seed, 64 * a + j + 1)
      invariant rng.state == Draw(seed, 64 * i)
    {
      var row := [];
      for j := 0 to BoardSize
        invariant |row| == j
        invariant forall b :: 0 <= b < j ==> row[b] == Draw(seed, 64 * i + b + 1)
        invariant rng.state == Draw(seed, 64 * i + j)
      {
        var r := rng.Next();
        row := row + [r];
      }
      table := table + [row];
    }
  }

  /** The module's constants: a generator seeded with `seed`, the piece table,
      then one more draw for the side to move. */
  method CreateZobristKeys(seed: bv32) returns (keys: Keys)
    ensures KeysFromSeed(keys, seed)
  {
    var rng := new Random32(seed);
    var table := CreatePieceTable(rng);
    var side := rng.Next();
    keys := ZobristKeys(table, side);
  }

  /** getPieceKindIndex: colour-major, then pawn, knight, bishop, rook,
      queen, king. */
  function PieceKindIndex(p: Piece): (k: int)
    ensures 0 <= k < 12
  {
    var colorIndex := if p.color == White then 0 else 1;
    var typeIndex := match p.kind
      case Pawn => 0
      case Knight => 1
      case Bishop => 2
      case Rook => 3
      case Queen => 4
      case King => 5;
    colorIndex * 6 + typeIndex
  }

  /** The piece of kind index k. */
  function PieceOfKindIndex(k: int): Piece
    requires 0 <= k < 12
  {
    var color := if k < 6 then White else Black;
    var t := k % 6;
    Piece(color, if t == 0 then Pawn else if t == 1 then Knight else if t == 2 then Bishop
                 else if t == 3 then Rook else if t == 4 then Queen else King)
  }

  /** The 12 pieces and the indices 0..11 correspond one to one. */
  lemma PieceKindIndexBijection(p: Piece, k: int)
    ensures PieceOfKindIndex(PieceKindIndex(p)) == p
    ensures 0 <= k < 12 ==> PieceKindIndex(PieceOfKindIndex(k)) == k
  {
  }

  /** The key of piece p standing on l. */
  function PieceKey(keys: Keys, p: Piece, l: Location): bv32 {
    keys.pieces[PieceKindIndex(p)][SquareIndex(l)]
  }

  // ------------------------------------------------------------- hashing

  /** What a location contributes to the hash of a placement. */
  function SquareKey(keys: Keys, pl: Placement): Location -> bv32 {
    l => if l in pl then PieceKey(keys, pl[l], l) else 0
  }

  /** The exclusive-or of the keys of the pieces, visited in the order o. */
  function PlacementHash(keys: Keys, pl: Placement, o: seq<Location>): bv32 {
    XorOver(o, SquareKey(keys, pl))
  }

  function SideKey(keys: Keys, side: Color): bv32 {
    if side == Black then keys.side else 0
  }

  /** computeZobristHash as a function of the placement, its key order and
      the side to move. */
  function PositionHash(keys: Keys, pl: Placement, o: seq<Location>, side: Color): bv32 {
    if side == Black then ToggleSideToMove(keys, PlacementHash(keys, pl, o)) else PlacementHash(keys, pl, o)
  }

  /** The hash of a placement is the same for every enumeration of it. */
  lemma PlacementHashOrderIndependent(keys: Keys, pl: Placement, o1: seq<Location>, o2: seq<Location>)
    requires IsEnumeration(o1, pl) && IsEnumeration(o2, pl)
    ensures PlacementHash(keys, pl, o1) == PlacementHash(keys, pl, o2)
  {
    XorOverPermutation(o1, o2, SquareKey(keys, pl));
  }

  /** Taking a piece off the board takes its key out of the hash. */
  lemma PlacementHashRemove(keys: Keys, pl: Placement, o: seq<Location>, l: Location)
    requires IsEnumeration(o, pl) && l in pl
    ensures PlacementHash(keys, pl, o) == PlacementHash(keys, pl - {l}, Without(o, l)) ^ PieceKey(keys, pl[l], l)
  {
    var w := Without(o, l);
    EnumerationMoveToEnd(o, pl, l, pl[l]);
    assert pl[l := pl[l]] == pl;
    PlacementHashOrderIndependent(keys, pl, o, w + [l]);
    XorOverSingle(w, l, SquareKey(keys, pl));
    XorOverCongruent(w, SquareKey(keys, pl), SquareKey(keys, pl - {l}));
  }

  /** Putting a piece on an empty square adds its key to the hash. */
  lemma PlacementHashAdd(keys: Keys, pl: Placement, o: seq<Location>, l: Location, p: Piece)
    requires IsEnumeration(o, pl) && l !in pl
    ensures IsEnumeration(o + [l], pl[l := p])
    ensures PlacementHash(keys, pl[l := p], o + [l]) == PlacementHash(keys, pl, o) ^ PieceKey(keys, p, l)
  {
    EnumerationMoveToEnd(o, pl, l, p);
    XorOverSingle(o, l, SquareKey(keys, pl[l := p]));
    XorOverCongruent(o, SquareKey(keys, pl[l := p]), SquareKey(keys, pl));
  }

  /** Black to move differs from White to move by the side key alone. */
  lemma PositionHashSides(keys: Keys, pl: Placement, o: seq<Location>)
    ensures PositionHash(keys, pl, o, Black) == ToggleSideToMove(keys, PositionHash(keys, pl, o, White))
  {
    assert PositionHash(keys, pl, o, White) == PlacementHash(keys, pl, o);
  }

  /** toggleSideToMove. */
  function ToggleSideToMove(keys: Keys, h: bv32): bv32 {
    h ^ keys.side
  }

  /** Toggling twice gives the hash back. */
  lemma ToggleInvolution(keys: Keys, h: bv32)
    ensures ToggleSideToMove(keys, ToggleSideToMove(keys, h)) == h
  {
  }

  /** The key getLegalMoves and checkForCheck look up for the side that is
      not to move: toggling the board hash gives the hash of the same
      position with the other side to move. */
  lemma PositionHashOtherSide(keys: Keys, pl: Placement, o: seq<Location>, side: Color)
    ensures ToggleSideToMove(keys, PositionHash(keys, pl, o, side)) == PositionHash(keys, pl, o, ReverseColor(side))
  {
    PositionHashSides(keys, pl, o);
    ToggleInvolution(keys, PositionHash(keys, pl, o, White));
  }

  /** The position hash does not depend on the key order either. */
  lemma PositionHashOrderIndependent(keys: Keys, pl: Placement, o1: seq<Location>, o2: seq<Location>, side: Color)
    requires IsEnumeration(o1, pl) && IsEnumeration(o2, pl)
    ensures PositionHash(keys, pl, o1, side) == PositionHash(keys, pl, o2, side)
  {
    PlacementHashOrderIndependent(keys, pl, o1, o2);
  }

  /** computeZobristHash: fold the keys of the board's pieces in the order
      getAllPieces lists them, then add the side key for Black. */
  method ComputeZobristHash(keys: Keys, board: Board, currentPlayer: Color) returns (hash: bv32)
    requires board.Valid()
    ensures hash == PositionHash(keys, board.pieceByLocation, board.keyOrder, currentPlayer)
  {
    hash := HashPieces(keys, board);
    if currentPlayer == Black {
      hash := ToggleSideToMove(keys, hash);
    }
  }

  /** The loop of computeZobristHash over getAllPieces(). */
  method HashPieces(keys: Keys, board: Board) returns (hash: bv32)
    requires board.Valid()
    ensures hash == PlacementHash(keys, board.pieceByLocation, board.keyOrder)
  {
    hash := 0;
    var pieces := board.GetAllPieces(None);
    for i := 0 to |pieces|
      invariant hash == PlacementHash(keys, board.pieceByLocation, pieces[..i])
    {
      var l := pieces[i];
      PlacementHashStep(keys, board.pieceByLocation, pieces, i);
      hash := hash ^ PieceKey(keys, board.pieceByLocation[l], l);
    }
    assert pieces[..|pieces|] == pieces;
  }

  /** One more piece of the enumeration folded into the hash. */
  lemma PlacementHashStep(keys: Keys, pl: Placement, o: seq<Location>, i: int)
    requires 0 <= i < |o| && o[i] in pl
    ensures PlacementHash(keys, pl, o[..i + 1]) == PlacementHash(keys, pl, o[..i]) ^ PieceKey(keys, pl[o[i]], o[i])
  {
    assert o[..i + 1] == o[..i] + [o[i]];
    XorOverSingle(o[..i], o[i], SquareKey(keys, pl));
  }

  /** The position hash is the hash of the pieces with the side key of the
      side to move. */
  lemma PositionHashSideKey(keys: Keys, pl: Placement, o: seq<Location>, side: Color)
    ensures PositionHash(keys, pl, o, side) == PlacementHash(keys, pl, o) ^ SideKey(keys, side)
  {
    if side == White {
      PositionHashWhite(keys, pl, o);
      XorZero(PlacementHash(keys, pl, o));
    } else {
      PositionHashBlack(keys, pl, o);
    }
  }

  /** With White to move the position hash is the hash of the pieces. */
  lemma PositionHashWhite(keys: Keys, pl: Placement, o: seq<Location>)
    ensures PositionHash(keys, pl, o, White) == PlacementHash(keys, pl, o)
  {
  }

  /** With Black to move the side key is added. */
  lemma PositionHashBlack(keys: Keys, pl: Placement, o: seq<Location>)
    ensures PositionHash(keys, pl, o, Black) == PlacementHash(keys, pl, o) ^ keys.side
  {
  }

  lemma XorZero(h: bv32)
    ensures h ^ 0 == h
  {
  }

  // ------------------------------------------------- incremental updates

  /** ZobristMoveInfo: the mover's squares, colour and type before and after
      (they differ on promotion), and the captured piece if any. */
  datatype MoveInfo = MoveInfo(from: Location, to: Location, pieceColor: Color,
                               typeBefore: PieceType, typeAfter: PieceType, captured: Option<Piece>)

  /** The key of the captured piece on the target square, if there is one. */
  function CaptureKey(keys: Keys, info: MoveInfo): bv32 {
    match info.captured
    case Some(c) => PieceKey(keys, c, info.to)
    case None => 0
  }

  /** The mover's key on `from` before the move and on `to` after it. */
  function MoverKeyBefore(keys: Keys, info: MoveInfo): bv32 {
    PieceKey(keys, Piece(info.pieceColor, info.typeBefore), info.from)
  }

  function MoverKeyAfter(keys: Keys, info: MoveInfo): bv32 {
    PieceKey(keys, Piece(info.pieceColor, info.typeAfter), info.to)
  }

  /** updateHashForMove: forwards, out goes the mover on `from`, the captured
      piece and in comes the mover (promoted) on `to`; with `undo` the same
      keys in reverse order. */
  function UpdateHashForMove(keys: Keys, h: bv32, info: MoveInfo, undo: bool): bv32 {
    if !undo then XorThree(h, MoverKeyBefore(keys, info), CaptureKey(keys, info), MoverKeyAfter(keys, info))
    else XorThree(h, MoverKeyAfter(keys, info), CaptureKey(keys, info), MoverKeyBefore(keys, info))
  }

  /** Three keys xored into h, one after the other. */
  function XorThree(h: bv32, a: bv32, b: bv32, c: bv32): bv32 {
    ((h ^ a) ^ b) ^ c
  }

  /** Undoing a move's update gives back the hash before it, and the other
      way round. */
  lemma UpdateHashRoundTrip(keys: Keys, h: bv32, info: MoveInfo)
    ensures UpdateHashForMove(keys, UpdateHashForMove(keys, h, info, false), info, true) == h
    ensures UpdateHashForMove(keys, UpdateHashForMove(keys, h, info, true), info, false) == h
  {
    var a, b, c := MoverKeyBefore(keys, info), CaptureKey(keys, info), MoverKeyAfter(keys, info);
    UpdateHashUnfold(keys, h, info);
    UpdateHashUnfold(keys, UpdateHashForMove(keys, h, info, false), info);
    UpdateHashUnfold(keys, UpdateHashForMove(keys, h, info, true), info);
    XorRoundTrip(h, a, b, c);
    XorRoundTrip(h, c, b, a);
  }

  lemma UpdateHashUnfold(keys: Keys, h: bv32, info: MoveInfo)
    ensures UpdateHashForMove(keys, h, info, false)
            == ((h ^ MoverKeyBefore(keys, info)) ^ CaptureKey(keys, info)) ^ MoverKeyAfter(keys, info)
    ensures UpdateHashForMove(keys, h, info, true)
            == ((h ^ MoverKeyAfter(keys, info)) ^ CaptureKey(keys, info)) ^ MoverKeyBefore(keys, info)
  {
  }

  lemma XorRoundTrip(h: bv32, a: bv32, b: bv32, c: bv32)
    ensures (((((h ^ a) ^ b) ^ c) ^ c) ^ b) ^ a == h
  {
  }

  /** The placement a move described by `info` produces. */
  function PlacementAfter(pl: Placement, info: MoveInfo): Placement {
    (pl - {info.from})[info.to := Piece(info.pieceColor, info.typeAfter)]
  }

  /** The move described by `info` applies to the placement: the mover is on
      `from` with its type before, and `captured` is what stands on `to`. */
  predicate Describes(pl: Placement, info: MoveInfo) {
    info.from != info.to
    && Lookup(pl, info.from) == Some(Piece(info.pieceColor, info.typeBefore))
    && Lookup(pl, info.to) == info.captured
  }

  /** The incremental update agrees with hashing the new position from
      scratch, whatever the key orders of the two boards. */
  lemma UpdateHashForMoveCorrect(keys: Keys, pl: Placement, o: seq<Location>, o': seq<Location>,
                                 info: MoveInfo, side: Color)
    requires IsEnumeration(o, pl) && Describes(pl, info)
    requires IsEnumeration(o', PlacementAfter(pl, info))
    ensures PositionHash(keys, PlacementAfter(pl, info), o', side)
            == UpdateHashForMove(keys, PositionHash(keys, pl, o, side), info, false)
  {
    MoveHashFromPlacement(keys, pl, o, o', info, side);
    PositionHashSideKey(keys, pl, o, side);
    PositionHashSideKey(keys, PlacementAfter(pl, info), o', side);
  }

  /** The same, with the two position hashes written out. */
  lemma MoveHashFromPlacement(keys: Keys, pl: Placement, o: seq<Location>, o': seq<Location>,
                              info: MoveInfo, side: Color)
    requires IsEnumeration(o, pl) && Describes(pl, info)
    requires IsEnumeration(o', PlacementAfter(pl, info))
    ensures PlacementHash(keys, PlacementAfter(pl, info), o') ^ SideKey(keys, side)
            == UpdateHashForMove(keys, PlacementHash(keys, pl, o) ^ SideKey(keys, side), info, false)
  {
    var pl1, o1 := PlacementWithoutMover(keys, pl, o, info);
    var pl2, o2 := PlacementWithoutTarget(keys, pl1, o1, info);
    PlacementWithMover(keys, pl, pl2, o2, o', info);
    MoveHashFromSteps(keys, pl, o, o', info, side, pl2, o2);
  }

  /** The placement hashes before and after, both related to the hash of the
      placement with `from` and `to` cleared. */
  lemma MoveHashFromSteps(keys: Keys, pl: Placement, o: seq<Location>, o': seq<Location>, info: MoveInfo,
                          side: Color, pl2: Placement, o2: seq<Location>)
    requires PlacementHash(keys, pl, o)
             == (PlacementHash(keys, pl2, o2) ^ CaptureKey(keys, info)) ^ MoverKeyBefore(keys, info)
    requires PlacementHash(keys, PlacementAfter(pl, info), o') == PlacementHash(keys, pl2, o2) ^ MoverKeyAfter(keys, info)
    ensures PlacementHash(keys, PlacementAfter(pl, info), o') ^ SideKey(keys, side)
            == UpdateHashForMove(keys, PlacementHash(keys, pl, o) ^ SideKey(keys, side), info, false)
  {
    CombineMoveHash(keys, info, PlacementHash(keys, pl, o), PlacementHash(keys, pl2, o2),
                    PlacementHash(keys, PlacementAfter(pl, info), o'), SideKey(keys, side));
  }

  /** The key algebra of a move on plain values: h2 is the hash of the board
      with `from` and `to` empty. */
  lemma CombineMoveHash(keys: Keys, info: MoveInfo, h0: bv32, h2: bv32, ha: bv32, s: bv32)
    requires h0 == (h2 ^ CaptureKey(keys, info)) ^ MoverKeyBefore(keys, info)
    requires ha == h2 ^ MoverKeyAfter(keys, info)
    ensures ha ^ s == UpdateHashForMove(keys, h0 ^ s, info, false)
  {
    XorRearrange(h0, h2, ha, MoverKeyBefore(keys, info), CaptureKey(keys, info), MoverKeyAfter(keys, info), s);
  }

  lemma XorRearrange(h0: bv32, h2: bv32, ha: bv32, b: bv32, c: bv32, a: bv32, s: bv32)
    requires h0 == (h2 ^ c) ^ b
    requires ha == h2 ^ a
    ensures ha ^ s == XorThree(h0 ^ s, b, c, a)
  {
  }


  /** The first step: the mover lifted off its square. */
  lemma PlacementWithoutMover(keys: Keys, pl: Placement, o: seq<Location>, info: MoveInfo)
    returns (pl1: Placement, o1: seq<Location>)
    requires IsEnumeration(o, pl) && Describes(pl, info)
    ensures pl1 == pl - {info.from} && IsEnumeration(o1, pl1)
    ensures Lookup(pl1, info.to) == info.captured
    ensures PlacementHash(keys, pl, o) == PlacementHash(keys, pl1, o1) ^ MoverKeyBefore(keys, info)
  {
    pl1, o1 := pl - {info.from}, Without(o, info.from);
    PlacementHashRemove(keys, pl, o, info.from);
    EnumerationMoveToEnd(o, pl, info.from, pl[info.from]);
  }

  /** The middle step: the target square emptied of the captured piece. */
  lemma PlacementWithoutTarget(keys: Keys, pl1: Placement, o1: seq<Location>, info: MoveInfo)
    returns (pl2: Placement, o2: seq<Location>)
    requires IsEnumeration(o1, pl1) && Lookup(pl1, info.to) == info.captured
    ensures IsEnumeration(o2, pl2) && info.to !in pl2
    ensures pl2[info.to := Piece(info.pieceColor, info.typeAfter)] == pl1[info.to := Piece(info.pieceColor, info.typeAfter)]
    ensures PlacementHash(keys, pl1, o1) == PlacementHash(keys, pl2, o2) ^ CaptureKey(keys, info)
  {
    if info.captured.Some? {
      pl2, o2 := pl1 - {info.to}, Without(o1, info.to);
      PlacementHashRemove(keys, pl1, o1, info.to);
      EnumerationMoveToEnd(o1, pl1, info.to, pl1[info.to]);
      assert pl2[info.to := Piece(info.pieceColor, info.typeAfter)] == pl1[info.to := Piece(info.pieceColor, info.typeAfter)];
    } else {
      pl2, o2 := pl1, o1;
    }
  }

  /** The last step: the mover, with its type after, put on the target. */
  lemma PlacementWithMover(keys: Keys, pl: Placement, pl2: Placement, o2: seq<Location>, o': seq<Location>,
                           info: MoveInfo)
    requires IsEnumeration(o2, pl2) && info.to !in pl2
    requires pl2[info.to := Piece(info.pieceColor, info.typeAfter)] == (pl - {info.from})[info.to := Piece(info.pieceColor, info.typeAfter)]
    requires IsEnumeration(o', PlacementAfter(pl, info))
    ensures PlacementHash(keys, PlacementAfter(pl, info), o') == PlacementHash(keys, pl2, o2) ^ MoverKeyAfter(keys, info)
  {
    var moved := Piece(info.pieceColor, info.typeAfter);
    PlacementHashAdd(keys, pl2, o2, info.to, moved);
    PlacementHashOrderIndependent(keys, PlacementAfter(pl, info), o', o2 + [info.to]);
  }
}
