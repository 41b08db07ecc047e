/** The game engine of src/engine/game.ts: turns, legality, check and the
    end of the game, with memo caches for the legal moves, the forced
    capture and the check of a position.  The source keys its caches by the
    Zobrist hash of the position; the model keys them by the position the
    hash stands for (placement and side to move), and proves that the hash
    the source computes as key is the hash of that position. */
module Games {
  import opened Types
  import opened Collections
  import opened Geometry
  import opened Boards
  import opened Zobrist
  import opened Rules

  /** What a cache entry is filed under: the position with the side whose
      moves or check it records. */
  datatype PositionKey = PositionKey(placement: Placement, side: Color)

  /** The record progressTurn returns. */
  datatype TurnResult = TurnResult(success: bool, end: bool, winner: Option<Color>,
                                   error: Option<GameError>, endReason: Option<GameEndReason>)

  function Failure(e: GameError): TurnResult {
    TurnResult(false, false, None, Some(e), None)
  }

  // ------------------------------------------ procedures on a board

  /** The locations of the kings of colour c (the board's king bucket). */
  method KingLocations(board: Board, c: Color) returns (kings: seq<Location>)
    requires board.Valid()
    ensures forall l :: l in kings <==> IsKingOf(board.pieceByLocation, l, c)
  {
    var pieces := board.GetAllPieces(Some(c));
    kings := [];
    for i := 0 to |pieces|
      invariant forall l :: l in kings <==> l in pieces[..i] && IsKingOf(board.pieceByLocation, l, c)
    {
      assert pieces[..i + 1] == pieces[..i] + [pieces[i]];
      if board.pieceByLocation[pieces[i]].kind == King {
        kings := kings + [pieces[i]];
      }
    }
    assert pieces[..|pieces|] == pieces;
  }

  /** isOnlyKingLeft, the same in both revisions of the game: the colour has
      no piece but kings. */
  function IsOnlyKingLeft(board: Board, color: Color): (r: bool)
    reads board, board.squares
    requires board.Valid()
    ensures r <==> OnlyKingLeftFor(board.pieceByLocation, color)
  {
    var pieces := board.GetAllPieces(Some(color));
    NonKingsNone(board.pieceByLocation, pieces);
    |NonKings(board.pieceByLocation, pieces)| == 0
  }

  /** kingLocations.some(...): the piece on a attacks one of the kings. */
  method AttacksAnyKing(board: Board, a: Location, kings: seq<Location>) returns (r: bool)
    requires a in board.pieceByLocation
    ensures r <==> exists j :: 0 <= j < |kings|
                     && CanAttack(board.pieceByLocation, a, board.pieceByLocation[a], kings[j])
  {
    var piece := board.pieceByLocation[a];
    for j := 0 to |kings|
      invariant forall i :: 0 <= i < j ==> !CanAttack(board.pieceByLocation, a, piece, kings[i])
    {
      var hit := board.CanPieceAttackLocation(piece, a, kings[j]);
      if hit {
        return true;
      }
    }
    return false;
  }

  /** checkForCheckByBoard: whether a king of `color` is attacked, and the
      opponent pieces, in key order, that attack one. */
  method CheckForCheckByBoard(board: Board, color: Color) returns (r: CheckResult)
    requires board.Valid()
    ensures r == CheckResult(InCheck(board.pieceByLocation, color),
                             Checkers(board.pieceByLocation, board.keyOrder, color))
  {
    var pl := board.pieceByLocation;
    var opponent := ReverseColor(color);
    var kingLocations := KingLocations(board, color);
    if |kingLocations| == 0 {
      CheckersWithoutKing(pl, board.GetAllPieces(Some(opponent)), color);
      return CheckResult(false, []);
    }
    var candidates := board.GetAllPieces(Some(opponent));
    var attackers := [];
    for i := 0 to |candidates|
      invariant attackers == CheckersAmong(pl, candidates[..i], color)
    {
      var a := candidates[i];
      var attacks := AttacksAnyKing(board, a, kingLocations);
      assert attacks == AttacksKingOf(pl, a, color) by {
        if AttacksKingOf(pl, a, color) {
          var k :| IsKingOf(pl, k, color) && CanAttack(pl, a, pl[a], k);
          assert k in kingLocations;
        }
      }
      CheckersAmongStep(pl, candidates, i, color);
      if attacks {
        attackers := attackers + [a];
      }
    }
    assert candidates[..|candidates|] == candidates;
    CheckersMembership(pl, board.keyOrder, color);
    return CheckResult(|attackers| > 0, attackers);
  }

  /** The board half of applyMove.  When the mover is not on the board
      nothing on the board changes (movePiece moves nothing and the type
      change reaches no square). */
  method ApplyMoveToBoard(board: Board, move: Move) returns (applied: Move)
    requires board.Valid()
    modifies board, board.squares
    ensures board.Valid()
    ensures board.pieceByLocation == ApplyPlacement(old(board.pieceByLocation), move)
    ensures applied == AppliedMove(old(board.pieceByLocation), move)
  {
    if move.from !in board.pieceByLocation {
      return move;
    }
    var captured := board.MovePiece(move.from, move.to);
    applied := move.(captured := if captured.Some? then captured else move.captured);
    if move.promotion.Some? {
      board.ChangePieceType(move.to, move.promotion.value);
    }
  }

  /** The board half of rollbackMove. */
  method RollbackMoveOnBoard(board: Board, move: Move)
    requires board.Valid()
    modifies board, board.squares
    ensures board.Valid()
    ensures board.pieceByLocation == RollbackPlacement(old(board.pieceByLocation), move)
  {
    if move.promotion.Some? {
      board.ChangePieceType(move.to, Pawn);
    }
    var _ := board.MovePiece(move.to, move.from);
    if move.captured.Some? {
      board.SetPiece(move.to, move.captured);
    }
  }

  /** The inner loop of generateCandidateMoves: the moves of the piece on
      `from` to each of its movable locations, added to the captures or to
      the quiet moves collected so far. */
  method CollectFrom(board: Board, from: Location, ghost before: seq<Move>,
                     captures0: seq<Move>, quiets0: seq<Move>)
    returns (captures: seq<Move>, quiets: seq<Move>)
    requires from in board.pieceByLocation
    requires captures0 == Captures(before) && quiets0 == Quiets(before)
    ensures var pl := board.pieceByLocation;
            var dests := MovableLocations(pl, from, pl[from]);
            captures == Captures(before + MovesFrom(pl, from, dests, |dests|))
            && quiets == Quiets(before + MovesFrom(pl, from, dests, |dests|))
  {
    var pl := board.pieceByLocation;
    var destinations := board.GetMovableLocations(from);
    captures, quiets := captures0, quiets0;
    assert before + MovesFrom(pl, from, destinations, 0) == before;
    for j := 0 to |destinations|
      invariant captures == Captures(before + MovesFrom(pl, from, destinations, j))
      invariant quiets == Quiets(before + MovesFrom(pl, from, destinations, j))
    {
      var move := MakeMove(pl, from, destinations[j], None).value;
      assert before + MovesFrom(pl, from, destinations, j + 1)
             == (before + MovesFrom(pl, from, destinations, j)) + [move];
      SplitAppend(before + MovesFrom(pl, from, destinations, j), move);
      if move.captured.Some? {
        captures := captures + [move];
      } else {
        quiets := quiets + [move];
      }
    }
  }

  /** The loop of generateCandidateMoves: for each own piece in key order
      and each of its movable locations, the move made by makeMove, put with
      the captures or with the quiet moves. */
  method CollectCandidates(board: Board, color: Color) returns (captures: seq<Move>, quiets: seq<Move>)
    requires board.Valid()
    ensures captures == Captures(Candidates(board.pieceByLocation, board.keyOrder, color))
    ensures quiets == Quiets(Candidates(board.pieceByLocation, board.keyOrder, color))
  {
    var ownPieces := board.GetAllPieces(Some(color));
    captures, quiets := [], [];
    for i := 0 to |ownPieces|
      invariant captures == Captures(CandidatesAmong(board.pieceByLocation, ownPieces, i))
      invariant quiets == Quiets(CandidatesAmong(board.pieceByLocation, ownPieces, i))
    {
      captures, quiets := CollectFrom(board, ownPieces[i], CandidatesAmong(board.pieceByLocation, ownPieces, i),
                                      captures, quiets);
    }
  }

  /** Whether a move's squares and promotion are the ones asked for, as the
      search of progressTurn compares them (squares by their keys). */
  predicate Matches(m: Move, from: Location, to: Location, promotion: Option<PieceType>) {
    LocationToKey(m.from) == LocationToKey(from) && LocationToKey(m.to) == LocationToKey(to)
    && m.promotion == promotion
  }

  lemma MatchesSquares(m: Move, from: Location, to: Location, promotion: Option<PieceType>)
    ensures Matches(m, from, to, promotion) <==> m.from == from && m.to == to && m.promotion == promotion
  {
    if Matches(m, from, to, promotion) {
      LocationToKeyInjective(m.from, from);
      LocationToKeyInjective(m.to, to);
    }
  }

  /** A legal move of colour c in pl with the squares and promotion asked for. */
  ghost predicate Requested(pl: Placement, c: Color, m: Move, from: Location, to: Location, promotion: Option<PieceType>) {
    IsLegal(pl, c, m) && m.from == from && m.to == to && m.promotion == promotion
  }

  /** legalMoves.find(...): the first move that matches, if any. */
  method FindMove(moves: seq<Move>, from: Location, to: Location, promotion: Option<PieceType>)
    returns (found: Option<Move>)
    ensures found.None? ==> forall m :: m in moves ==> !Matches(m, from, to, promotion)
    ensures found.Some? ==> exists i :: 0 <= i < |moves| && moves[i] == found.value
                              && Matches(moves[i], from, to, promotion)
                              && forall j :: 0 <= j < i ==> !Matches(moves[j], from, to, promotion)
  {
    for i := 0 to |moves|
      invariant forall j :: 0 <= j < i ==> !Matches(moves[j], from, to, promotion)
    {
      if Matches(moves[i], from, to, promotion) {
        return Some(moves[i]);
      }
    }
    return None;
  }

  /** `new Board()`: a fresh board in the starting position. */
  method NewBoard() returns (b: Board)
    ensures fresh(b) && fresh(b.squares) && b.Valid()
    ensures forall l :: Lookup(b.pieceByLocation, l) == InitialPieceAt(l)
  {
    b := new Board();
  }

  // ------------------------------------------------------------ caches

  /** Every cached list of legal moves is LegalMoves of its position under
      the key order, recorded in `order`, that it was generated in. */
  ghost predicate LegalCacheSound(cache: map<PositionKey, seq<Move>>, order: map<PositionKey, seq<Location>>) {
    forall k :: k in cache ==>
      k in order && IsEnumeration(order[k], k.placement)
      && cache[k] == LegalMoves(k.placement, order[k], k.side)
  }

  /** Every cached flag says whether capturing is forced in its position. */
  ghost predicate ForcedCacheSound(cache: map<PositionKey, bool>) {
    forall k :: k in cache ==> cache[k] == CaptureForced(k.placement, k.side)
  }

  /** Every cached check result is the check of its position, its checkers
      listed in the key order recorded in `order`. */
  ghost predicate CheckCacheSound(cache: map<PositionKey, CheckResult>, order: map<PositionKey, seq<Location>>) {
    forall k :: k in cache ==>
      k in order && IsEnumeration(order[k], k.placement)
      && cache[k] == CheckResult(InCheck(k.placement, k.side), Checkers(k.placement, order[k], k.side))
  }

  lemma LegalCacheStore(cache: map<PositionKey, seq<Move>>, order: map<PositionKey, seq<Location>>,
                        key: PositionKey, o: seq<Location>)
    requires LegalCacheSound(cache, order) && IsEnumeration(o, key.placement)
    ensures LegalCacheSound(cache[key := LegalMoves(key.placement, o, key.side)], order[key := o])
  {
  }

  lemma ForcedCacheStore(cache: map<PositionKey, bool>, key: PositionKey, forced: bool)
    requires ForcedCacheSound(cache) && forced == CaptureForced(key.placement, key.side)
    ensures ForcedCacheSound(cache[key := forced])
  {
  }

  lemma CheckCacheStore(cache: map<PositionKey, CheckResult>, order: map<PositionKey, seq<Location>>,
                        key: PositionKey, o: seq<Location>)
    requires CheckCacheSound(cache, order) && IsEnumeration(o, key.placement)
    ensures CheckCacheSound(cache[key := CheckResult(InCheck(key.placement, key.side),
                                                     Checkers(key.placement, o, key.side))],
                            order[key := o])
  {
  }

  // ------------------------------------------------------------ the game

  class Game {
    const board: Board
    const keys: Keys
    var currentPlayer: Color
    var winner: Option<Color>
    var turnCount: nat
    var state: GameState
    var endReason: Option<GameEndReason>
    var history: seq<Move>
    var cachedLegalMoves: map<PositionKey, seq<Move>>
    var cachedCaptureForced: map<PositionKey, bool>
    var cachedCheck: map<PositionKey, CheckResult>
    var boardHash: bv32
    /** The key order under which each cached list was computed. */
    ghost var legalOrder: map<PositionKey, seq<Location>>
    ghost var checkOrder: map<PositionKey, seq<Location>>

    /** The board is well formed, the board hash is the hash of the position
        with the current player to move, and the caches are sound. */
    ghost predicate Valid()
      reads this, board, board.squares
    {
      board.Valid() && HashValid() && CachesValid()
    }

    /** The board hash is the hash of the position with the current player
        to move. */
    ghost predicate HashValid()
      reads this`boardHash, this`currentPlayer, board`pieceByLocation, board`keyOrder
    {
      boardHash == PositionHash(keys, board.pieceByLocation, board.keyOrder, currentPlayer)
    }

    /** Every cache entry is what the computation it saves gives for its
        position: the legal moves as generated under some key order of the
        placement, whether a capture is forced, and the check result. */
    ghost predicate CachesValid()
      reads this`cachedLegalMoves, this`cachedCaptureForced, this`cachedCheck, this`legalOrder, this`checkOrder
    {
      LegalCacheValid() && ForcedCacheValid() && CheckCacheValid()
    }

    ghost predicate LegalCacheValid()
      reads this`cachedLegalMoves, this`legalOrder
    {
      LegalCacheSound(cachedLegalMoves, legalOrder)
    }

    ghost predicate ForcedCacheValid()
      reads this`cachedCaptureForced
    {
      ForcedCacheSound(cachedCaptureForced)
    }

    ghost predicate CheckCacheValid()
      reads this`cachedCheck, this`checkOrder
    {
      CheckCacheSound(cachedCheck, checkOrder)
    }

    /** Nothing a player can see has changed. */
    twostate predicate Unmoved()
      reads this, board
    {
      board.pieceByLocation == old(board.pieceByLocation) && currentPlayer == old(currentPlayer)
      && turnCount == old(turnCount) && history == old(history) && state == old(state)
      && winner == old(winner) && endReason == old(endReason)
    }

    /** A game on the given board (a new board in the starting position when
        none is given) with the given player to move, Black by default.  The
        key table is the one the hashing module builds once, when it is
        loaded, with CreateZobristKeys(SeedValue). */
    constructor(initialBoard: Board?, initialPlayer: Option<Color>, zobristKeys: Keys)
      requires initialBoard != null ==> initialBoard.Valid()
      ensures Valid() && keys == zobristKeys
      ensures initialBoard != null ==> board == initialBoard
      ensures initialBoard == null ==> forall l :: Lookup(board.pieceByLocation, l) == InitialPieceAt(l)
      ensures currentPlayer == initialPlayer.GetOr(Black) && winner.None? && turnCount == 0
      ensures state == Initial && endReason.None? && history == []
      ensures cachedLegalMoves == map[] && cachedCaptureForced == map[] && cachedCheck == map[]
    {
      var b: Board;
      if initialBoard != null {
        b := initialBoard;
      } else {
        b := NewBoard();
      }
      board, keys := b, zobristKeys;
      currentPlayer := initialPlayer.GetOr(Black);
      winner, turnCount, state, endReason := None, 0, Initial, None;
      history := [];
      cachedLegalMoves, cachedCaptureForced, cachedCheck := map[], map[], map[];
      legalOrder, checkOrder := map[], map[];
      new;
      boardHash := ComputeZobristHash(keys, board, currentPlayer);
    }

    /** The key getLegalMoves and checkForCheck compute for `color`: the board
        hash, toggled when `color` is not to move.  It is the hash of the
        position with `color` to move. */
    function HashKey(color: Color): (h: bv32)
      reads this, board, board.squares
      requires Valid()
      ensures h == PositionHash(keys, board.pieceByLocation, board.keyOrder, color)
    {
      if color == currentPlayer then boardHash
      else
        PositionHashOtherSide(keys, board.pieceByLocation, board.keyOrder, currentPlayer);
        ToggleSideToMove(keys, boardHash)
    }

    method StartGame() returns (success: bool, error: Option<GameError>)
      requires Valid()
      modifies this`state
      ensures Valid()
      ensures old(state) != Initial ==> !success && error == Some(GameAlreadyStarted) && state == old(state)
      ensures old(state) == Initial ==> success && error.None? && state == InPlay
    {
      if state != Initial {
        return false, Some(GameAlreadyStarted);
      }
      state := InPlay;
      return true, None;
    }

    method SwitchPlayer()
      requires Valid()
      modifies this`currentPlayer, this`turnCount, this`boardHash
      ensures Valid()
      ensures currentPlayer == ReverseColor(old(currentPlayer)) && turnCount == old(turnCount) + 1
    {
      currentPlayer := ReverseColor(currentPlayer);
      turnCount := turnCount + 1;
      boardHash := ComputeZobristHash(keys, board, currentPlayer);
    }

    method FinishGame(w: Option<Color>, reason: GameEndReason)
      requires Valid()
      modifies this`winner, this`endReason, this`state
      ensures Valid()
      ensures winner == w && endReason == Some(reason) && state == Finished
    {
      winner, endReason, state := w, Some(reason), Finished;
    }

    /** applyMove: the move on the board, then the hash of the new position. */
    method ApplyMove(move: Move) returns (applied: Move)
      requires Valid()
      modifies board, board.squares, this`boardHash
      ensures Valid()
      ensures board.pieceByLocation == ApplyPlacement(old(board.pieceByLocation), move)
      ensures applied == AppliedMove(old(board.pieceByLocation), move)
    {
      applied := ApplyMoveToBoard(board, move);
      boardHash := ComputeZobristHash(keys, board, currentPlayer);
    }

    /** rollbackMove: the move taken back on the board, then the hash. */
    method RollbackMove(move: Move)
      requires Valid()
      modifies board, board.squares, this`boardHash
      ensures Valid()
      ensures board.pieceByLocation == RollbackPlacement(old(board.pieceByLocation), move)
    {
      RollbackMoveOnBoard(board, move);
      boardHash := ComputeZobristHash(keys, board, currentPlayer);
    }

    /** checkForNextCheck: whether the move leaves `color`'s king attacked;
        the board and its hash are as they were afterwards. */
    method CheckForNextCheck(move: Move, color: Color) returns (inCheck: bool)
      requires Valid() && Consistent(board.pieceByLocation, move)
      modifies board, board.squares, this`boardHash
      ensures Valid()
      ensures board.pieceByLocation == old(board.pieceByLocation) && boardHash == old(boardHash)
      ensures inCheck == InCheck(ApplyPlacement(old(board.pieceByLocation), move), color)
    {
      ghost var pl, o := board.pieceByLocation, board.keyOrder;
      var applied := ApplyMove(move);
      var result := CheckForCheckByBoard(board, color);
      RollbackRestores(pl, move);
      RollbackMove(applied);
      PositionHashOrderIndependent(keys, pl, o, board.keyOrder, currentPlayer);
      return result.isInCheck;
    }

    /** The filter by !checkForNextCheck. */
    method FilterNotInCheck(moves: seq<Move>, color: Color) returns (kept: seq<Move>)
      requires Valid()
      requires forall m :: m in moves ==> Consistent(board.pieceByLocation, m)
      modifies board, board.squares, this`boardHash
      ensures Valid()
      ensures board.pieceByLocation == old(board.pieceByLocation) && boardHash == old(boardHash)
      ensures kept == SafeMoves(old(board.pieceByLocation), color, moves)
    {
      ghost var pl := board.pieceByLocation;
      kept := [];
      for i := 0 to |moves|
        invariant Valid() && board.pieceByLocation == pl && boardHash == old(boardHash)
        invariant kept == SafeMoves(pl, color, moves[..i])
      {
        var inCheck := CheckForNextCheck(moves[i], color);
        SafeMovesStep(pl, color, moves, i);
        if !inCheck {
          kept := kept + [moves[i]];
        }
      }
      assert moves[..|moves|] == moves;
    }

    /** generateCandidateMoves: the candidates split into captures and quiet
        moves, each promoted and then filtered by the self-check test. */
    method GenerateCandidateMoves(color: Color) returns (captureMoves: seq<Move>, quietMoves: seq<Move>)
      requires Valid()
      modifies board, board.squares, this`boardHash
      ensures Valid()
      ensures board.pieceByLocation == old(board.pieceByLocation) && boardHash == old(boardHash)
      ensures captureMoves == GeneratedCaptures(old(board.pieceByLocation), old(board.keyOrder), color)
      ensures quietMoves == GeneratedQuiets(old(board.pieceByLocation), old(board.keyOrder), color)
    {
      ghost var pl, o := board.pieceByLocation, board.keyOrder;
      var captures, quiets := CollectCandidates(board, color);
      var promotedCaptureMoves := FlatPromote(captures);
      var promotedQuietMoves := FlatPromote(quiets);
      PromotedConsistent(pl, o, color);
      captureMoves := FilterNotInCheck(promotedCaptureMoves, color);
      quietMoves := FilterNotInCheck(promotedQuietMoves, color);
    }

    /** getLegalMoves: the cached list for the position when there is one,
        otherwise the safe captures if any, else the safe quiet moves, which
        are then cached together with whether capturing is forced.  Either
        way the list is LegalMoves of the position under the key order it
        was generated in (LegalMovesMembership: exactly the legal moves). */
    method GetLegalMoves(color: Color) returns (moves: seq<Move>)
      requires Valid()
      modifies board, board.squares, this`boardHash
      modifies this`cachedLegalMoves, this`cachedCaptureForced, this`legalOrder
      ensures Valid()
      ensures board.pieceByLocation == old(board.pieceByLocation) && boardHash == old(boardHash)
      ensures var key := PositionKey(board.pieceByLocation, color);
              key in cachedLegalMoves && key in legalOrder && IsEnumeration(legalOrder[key], key.placement)
              && moves == cachedLegalMoves[key] && moves == LegalMoves(key.placement, legalOrder[key], color)
    {
      var key := PositionKey(board.pieceByLocation, color);
      if key in cachedLegalMoves {
        return cachedLegalMoves[key];
      }
      ghost var o := board.keyOrder;
      var captureMoves, quietMoves := GenerateCandidateMoves(color);
      var forced := |captureMoves| > 0;
      moves := if forced then captureMoves else quietMoves;
      GeneratedForced(key.placement, o, color);
      StoreLegalMoves(key, moves, forced, o);
    }

    /** The two cache writes of getLegalMoves. */
    method StoreLegalMoves(key: PositionKey, moves: seq<Move>, forced: bool, ghost o: seq<Location>)
      requires Valid() && IsEnumeration(o, key.placement)
      requires moves == LegalMoves(key.placement, o, key.side)
      requires forced == CaptureForced(key.placement, key.side)
      modifies this`cachedLegalMoves, this`cachedCaptureForced, this`legalOrder
      ensures Valid()
      ensures cachedLegalMoves == old(cachedLegalMoves)[key := moves]
      ensures cachedCaptureForced == old(cachedCaptureForced)[key := forced]
      ensures legalOrder == old(legalOrder)[key := o]
    {
      StoreForced(key, forced);
      StoreLegal(key, moves, o);
    }

    method StoreLegal(key: PositionKey, moves: seq<Move>, ghost o: seq<Location>)
      requires Valid() && IsEnumeration(o, key.placement)
      requires moves == LegalMoves(key.placement, o, key.side)
      modifies this`cachedLegalMoves, this`legalOrder
      ensures Valid()
      ensures cachedLegalMoves == old(cachedLegalMoves)[key := moves]
      ensures legalOrder == old(legalOrder)[key := o]
    {
      LegalCacheStore(cachedLegalMoves, legalOrder, key, o);
      cachedLegalMoves, legalOrder := cachedLegalMoves[key := moves], legalOrder[key := o];
    }

    method StoreForced(key: PositionKey, forced: bool)
      requires Valid()
      requires forced == CaptureForced(key.placement, key.side)
      modifies this`cachedCaptureForced
      ensures Valid()
      ensures cachedCaptureForced == old(cachedCaptureForced)[key := forced]
    {
      ForcedCacheStore(cachedCaptureForced, key, forced);
      cachedCaptureForced := cachedCaptureForced[key := forced];
    }

    /** isCaptureForced for the player to move. */
    method IsCaptureForced() returns (forced: bool)
      requires Valid()
      modifies board, board.squares, this`boardHash
      modifies this`cachedLegalMoves, this`cachedCaptureForced, this`legalOrder
      ensures Valid()
      ensures board.pieceByLocation == old(board.pieceByLocation) && boardHash == old(boardHash)
      ensures forced == CaptureForced(board.pieceByLocation, currentPlayer)
    {
      var key := PositionKey(board.pieceByLocation, currentPlayer);
      if key in cachedCaptureForced {
        return cachedCaptureForced[key];
      }
      ghost var o := board.keyOrder;
      var captureMoves, quietMoves := GenerateCandidateMoves(currentPlayer);
      forced := |captureMoves| > 0;
      GeneratedForced(key.placement, o, currentPlayer);
      StoreLegalMoves(key, if forced then captureMoves else quietMoves, forced, o);
    }

    /** checkForCheck, cached per position. */
    method CheckForCheck(color: Color) returns (r: CheckResult)
      requires Valid()
      modifies this`cachedCheck, this`checkOrder
      ensures Valid()
      ensures r.isInCheck == InCheck(board.pieceByLocation, color)
      ensures forall l :: l in r.checkers <==>
                l in board.pieceByLocation && board.pieceByLocation[l].color == ReverseColor(color)
                && AttacksKingOf(board.pieceByLocation, l, color)
    {
      var key := PositionKey(board.pieceByLocation, color);
      if key in cachedCheck {
        CheckersMembership(key.placement, checkOrder[key], color);
        return cachedCheck[key];
      }
      r := CheckForCheckByBoard(board, color);
      CheckersMembership(key.placement, board.keyOrder, color);
      StoreCheck(key, r, board.keyOrder);
    }

    /** The cache write of checkForCheck. */
    method StoreCheck(key: PositionKey, r: CheckResult, ghost o: seq<Location>)
      requires Valid() && IsEnumeration(o, key.placement)
      requires r == CheckResult(InCheck(key.placement, key.side), Checkers(key.placement, o, key.side))
      modifies this`cachedCheck, this`checkOrder
      ensures Valid()
      ensures cachedCheck == old(cachedCheck)[key := r] && checkOrder == old(checkOrder)[key := o]
    {
      CheckCacheStore(cachedCheck, checkOrder, key, o);
      cachedCheck, checkOrder := cachedCheck[key := r], checkOrder[key := o];
    }

    method CheckForCheckmate(color: Color) returns (isInCheckmate: bool, checkers: seq<Location>)
      requires Valid()
      modifies board, board.squares, this`boardHash
      modifies this`cachedLegalMoves, this`cachedCaptureForced, this`legalOrder, this`cachedCheck, this`checkOrder
      ensures Valid()
      ensures board.pieceByLocation == old(board.pieceByLocation) && boardHash == old(boardHash)
      ensures isInCheckmate == (InCheck(board.pieceByLocation, color) && HasNoLegalMove(board.pieceByLocation, color))
      ensures forall l :: l in checkers <==>
                l in board.pieceByLocation && board.pieceByLocation[l].color == ReverseColor(color)
                && AttacksKingOf(board.pieceByLocation, l, color)
    {
      var check := CheckForCheck(color);
      var legalMoves := GetLegalMoves(color);
      LegalMovesEmpty(board.pieceByLocation, legalOrder[PositionKey(board.pieceByLocation, color)], color);
      return check.isInCheck && |legalMoves| == 0, check.checkers;
    }

    method IsStalemate(color: Color) returns (r: bool)
      requires Valid()
      modifies board, board.squares, this`boardHash
      modifies this`cachedLegalMoves, this`cachedCaptureForced, this`legalOrder, this`cachedCheck, this`checkOrder
      ensures Valid()
      ensures board.pieceByLocation == old(board.pieceByLocation) && boardHash == old(boardHash)
      ensures r == (!InCheck(board.pieceByLocation, color) && HasNoLegalMove(board.pieceByLocation, color))
    {
      var check := CheckForCheck(color);
      var legalMoves := GetLegalMoves(color);
      LegalMovesEmpty(board.pieceByLocation, legalOrder[PositionKey(board.pieceByLocation, color)], color);
      return !check.isInCheck && |legalMoves| == 0;
    }

    method IsLoneIsland(color: Color) returns (r: bool)
      requires Valid()
      modifies board, board.squares, this`boardHash
      modifies this`cachedLegalMoves, this`cachedCaptureForced, this`legalOrder, this`cachedCheck, this`checkOrder
      ensures Valid()
      ensures board.pieceByLocation == old(board.pieceByLocation) && boardHash == old(boardHash)
      ensures r == LoneIslandFor(board.pieceByLocation, color)
    {
      var check := CheckForCheck(color);
      if check.isInCheck {
        LoneIslandLegal(board.pieceByLocation, board.keyOrder, color);
        return false;
      }
      var legalMoves := GetLegalMoves(color);
      LoneIslandLegal(board.pieceByLocation, legalOrder[PositionKey(board.pieceByLocation, color)], color);
      if |legalMoves| == 0 {
        return false;
      }
      var kingMovesWithoutCapture := Quiets(KingMoves(legalMoves));
      return |kingMovesWithoutCapture| == |legalMoves|;
    }

    /** The end tests of progressTurn for the side now to move, in order, the
        first that holds deciding. */
    method DetectEnd(c: Color) returns (reason: Option<GameEndReason>)
      requires Valid()
      modifies board, board.squares, this`boardHash
      modifies this`cachedLegalMoves, this`cachedCaptureForced, this`legalOrder, this`cachedCheck, this`checkOrder
      ensures Valid()
      ensures board.pieceByLocation == old(board.pieceByLocation) && boardHash == old(boardHash)
      ensures reason == EndFor(board.pieceByLocation, c)
    {
      if IsOnlyKingLeft(board, c) {
        return Some(OnlyKingLeft);
      }
      var isInCheckmate, _ := CheckForCheckmate(c);
      if isInCheckmate {
        return Some(Checkmate);
      }
      var isStalemate := IsStalemate(c);
      if isStalemate {
        return Some(Stalemate);
      }
      var isLoneIsland := IsLoneIsland(c);
      if isLoneIsland {
        return Some(LoneIsland);
      }
      return None;
    }

    /** progressTurn: the turn, the game state and the legality of the move
        are checked in that order; a legal move is applied and recorded, the
        turn passes, and the game ends if the side now to move has only
        kings, is checkmated, stalemated, or has only quiet king moves. */
    method ProgressTurn(color: Color, from: Location, to: Location, promotion: Option<PieceType>)
      returns (r: TurnResult)
      requires Valid()
      modifies board, board.squares, this`boardHash, this`history, this`currentPlayer, this`turnCount
      modifies this`winner, this`endReason, this`state
      modifies this`cachedLegalMoves, this`cachedCaptureForced, this`legalOrder, this`cachedCheck, this`checkOrder
      ensures Valid()
      ensures color != old(currentPlayer) ==> r == Failure(NotYourTurn)
      ensures color == old(currentPlayer) && old(state) == Initial ==> r == Failure(GameNotStarted)
      ensures color == old(currentPlayer) && old(state) == Finished ==> r == Failure(GameFinished)
      ensures color == old(currentPlayer) && old(state) == InPlay
              && (forall m :: !Requested(old(board.pieceByLocation), color, m, from, to, promotion))
              ==> r == Failure(InvalidMove)
      ensures color == old(currentPlayer) && old(state) == InPlay
              && (exists m :: Requested(old(board.pieceByLocation), color, m, from, to, promotion))
              ==> r.success
      ensures !r.success ==> Unmoved()
      ensures r.success ==>
                color == old(currentPlayer) && old(state) == InPlay
                && exists m :: Requested(old(board.pieceByLocation), color, m, from, to, promotion)
                               && board.pieceByLocation == ApplyPlacement(old(board.pieceByLocation), m)
                               && history == old(history) + [m]
      ensures r.success ==>
                currentPlayer == ReverseColor(color) && turnCount == old(turnCount) + 1
                && r.error.None? && r.endReason == EndFor(board.pieceByLocation, currentPlayer)
                && r.end == r.endReason.Some?
                && r.winner == (if r.end then WinnerFor(r.endReason.value, currentPlayer) else None)
                && (r.end ==> state == Finished && winner == r.winner && endReason == r.endReason)
                && (!r.end ==> state == InPlay && winner == old(winner) && endReason == old(endReason))
    {
      if color != currentPlayer {
        return Failure(NotYourTurn);
      }
      if state == Initial {
        return Failure(GameNotStarted);
      }
      if state == Finished {
        return Failure(GameFinished);
      }
      r := ProgressInPlay(color, from, to, promotion);
    }

    /** progressTurn once the turn and the state are checked: the requested
        move is looked up among the legal moves and played. */
    method ProgressInPlay(color: Color, from: Location, to: Location, promotion: Option<PieceType>)
      returns (r: TurnResult)
      requires Valid() && color == currentPlayer && state == InPlay
      modifies board, board.squares, this`boardHash, this`history, this`currentPlayer, this`turnCount
      modifies this`winner, this`endReason, this`state
      modifies this`cachedLegalMoves, this`cachedCaptureForced, this`legalOrder, this`cachedCheck, this`checkOrder
      ensures Valid()
      ensures (forall m :: !Requested(old(board.pieceByLocation), color, m, from, to, promotion))
              ==> r == Failure(InvalidMove)
      ensures (exists m :: Requested(old(board.pieceByLocation), color, m, from, to, promotion)) ==> r.success
      ensures !r.success ==> Unmoved()
      ensures r.success ==>
                exists m :: Requested(old(board.pieceByLocation), color, m, from, to, promotion)
                            && board.pieceByLocation == ApplyPlacement(old(board.pieceByLocation), m)
                            && history == old(history) + [m]
      ensures r.success ==>
                currentPlayer == ReverseColor(color) && turnCount == old(turnCount) + 1
                && r.error.None? && r.endReason == EndFor(board.pieceByLocation, currentPlayer)
                && r.end == r.endReason.Some?
                && r.winner == (if r.end then WinnerFor(r.endReason.value, currentPlayer) else None)
                && (r.end ==> state == Finished && winner == r.winner && endReason == r.endReason)
                && (!r.end ==> state == InPlay && winner == old(winner) && endReason == old(endReason))
    {
      var found := FindLegalMove(color, from, to, promotion);
      if found.None? {
        return Failure(InvalidMove);
      }
      LegalConsistent(board.pieceByLocation, color, found.value);
      r := PlayMove(found.value);
    }

    /** The search of progressTurn: the first move of the legal move list
        from `from` to `to` with the given promotion. */
    method FindLegalMove(color: Color, from: Location, to: Location, promotion: Option<PieceType>)
      returns (found: Option<Move>)
      requires Valid()
      modifies board, board.squares, this`boardHash
      modifies this`cachedLegalMoves, this`cachedCaptureForced, this`legalOrder
      ensures Valid()
      ensures board.pieceByLocation == old(board.pieceByLocation) && boardHash == old(boardHash)
      ensures found.None? ==> forall m :: !Requested(board.pieceByLocation, color, m, from, to, promotion)
      ensures found.Some? ==> Requested(board.pieceByLocation, color, found.value, from, to, promotion)
    {
      var legalMoves := GetLegalMoves(color);
      LegalMovesMembership(board.pieceByLocation, legalOrder[PositionKey(board.pieceByLocation, color)], color);
      found := FindMove(legalMoves, from, to, promotion);
      if found.None? {
        forall m ensures !Requested(board.pieceByLocation, color, m, from, to, promotion) {
          MatchesSquares(m, from, to, promotion);
        }
      } else {
        MatchesSquares(found.value, from, to, promotion);
      }
    }

    /** The rest of progressTurn once a legal move is found (legal moves are
        Consistent, LegalConsistent): it is applied
        and recorded, the turn passes, and the end tests run for the side
        now to move. */
    method PlayMove(move: Move) returns (r: TurnResult)
      requires Valid() && Consistent(board.pieceByLocation, move)
      modifies board, board.squares, this`boardHash, this`history, this`currentPlayer, this`turnCount
      modifies this`winner, this`endReason, this`state
      modifies this`cachedLegalMoves, this`cachedCaptureForced, this`legalOrder, this`cachedCheck, this`checkOrder
      ensures Valid()
      ensures board.pieceByLocation == ApplyPlacement(old(board.pieceByLocation), move)
      ensures history == old(history) + [move]
      ensures currentPlayer == ReverseColor(old(currentPlayer)) && turnCount == old(turnCount) + 1
      ensures r.success && r.error.None? && r.endReason == EndFor(board.pieceByLocation, currentPlayer)
      ensures r.end == r.endReason.Some?
      ensures r.winner == (if r.end then WinnerFor(r.endReason.value, currentPlayer) else None)
      ensures r.end ==> state == Finished && winner == r.winner && endReason == r.endReason
      ensures !r.end ==> state == old(state) && winner == old(winner) && endReason == old(endReason)
    {
      var opponent := ReverseColor(currentPlayer);
      RollbackRestores(board.pieceByLocation, move);
      // applyMove, the push onto the history and switchPlayer: the steps of
      // applyMoveForSearch
      ApplyMoveForSearch(move);
      r := EndTurn(opponent);
    }

    /** The end tests of progressTurn after the turn has passed to `c`; the
        game is finished when one of them holds. */
    method EndTurn(c: Color) returns (r: TurnResult)
      requires Valid()
      modifies board, board.squares, this`boardHash, this`winner, this`endReason, this`state
      modifies this`cachedLegalMoves, this`cachedCaptureForced, this`legalOrder, this`cachedCheck, this`checkOrder
      ensures Valid()
      ensures board.pieceByLocation == old(board.pieceByLocation)
      ensures r.success && r.error.None? && r.endReason == EndFor(board.pieceByLocation, c)
      ensures r.end == r.endReason.Some?
      ensures r.winner == (if r.end then WinnerFor(r.endReason.value, c) else None)
      ensures r.end ==> state == Finished && winner == r.winner && endReason == r.endReason
      ensures !r.end ==> state == old(state) && winner == old(winner) && endReason == old(endReason)
    {
      var reason := DetectEnd(c);
      if reason.Some? {
        var w := WinnerFor(reason.value, c);
        FinishGame(w, reason.value);
        return TurnResult(true, true, w, None, reason);
      }
      return TurnResult(true, false, None, None, None);
    }

    /** applyMoveForSearch: apply, record and pass the turn. */
    method ApplyMoveForSearch(move: Move)
      requires Valid()
      modifies board, board.squares, this`boardHash, this`history, this`currentPlayer, this`turnCount
      ensures Valid()
      ensures board.pieceByLocation == ApplyPlacement(old(board.pieceByLocation), move)
      ensures history == old(history) + [AppliedMove(old(board.pieceByLocation), move)]
      ensures currentPlayer == ReverseColor(old(currentPlayer)) && turnCount == old(turnCount) + 1
    {
      var appliedMove := ApplyMove(move);
      history := history + [appliedMove];
      SwitchPlayer();
    }

    /** rollbackMoveForSearch: take the last recorded move back and pass the
        turn again (the turn counter is not decremented). */
    method RollbackMoveForSearch()
      requires Valid()
      modifies board, board.squares, this`boardHash, this`history, this`currentPlayer, this`turnCount
      ensures Valid()
      ensures old(history) == [] ==> Unmoved()
      ensures old(history) != [] ==>
                history == old(history)[..|old(history)| - 1]
                && board.pieceByLocation == RollbackPlacement(old(board.pieceByLocation), old(history)[|old(history)| - 1])
                && currentPlayer == ReverseColor(old(currentPlayer)) && turnCount == old(turnCount) + 1
    {
      if history == [] {
        return;
      }
      var move := history[|history| - 1];
      history := history[..|history| - 1];
      SwitchPlayer();
      RollbackMove(move);
    }
  }
}
