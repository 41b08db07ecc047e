/** The earlier revision of the game engine (engine/game.ts).  It shares the
    board and the move geometry with the current one but differs in its
    rules: the capture rule is applied before the self-check filter, there
    is no promotion, the caches are keyed by the turn number and serve only
    the player to move, progressTurn neither consults the game state nor
    compares promotions, and the end tests run in the order Checkmate,
    Stalemate, LoneIsland, OnlyKingLeft without early return, the last one
    that holds deciding. */
module EarlierGames {
  import opened Types
  import opened Collections
  import opened Geometry
  import opened Boards
  import opened Rules
  import opened Games

  // ------------------------------------------------------------- the rules

  /** generateCandidateMoves: the candidate captures if there are any,
      otherwise the candidate quiet moves; nothing is filtered yet. */
  function EarlierCandidates(pl: Placement, o: seq<Location>, c: Color): seq<Move>
    requires IsEnumeration(o, pl)
  {
    var candidates := Candidates(pl, o, c);
    if |Captures(candidates)| > 0 then Captures(candidates) else Quiets(candidates)
  }

  /** getLegalMoves: the candidates that do not leave c's king attacked. */
  ghost function EarlierLegalMoves(pl: Placement, o: seq<Location>, c: Color): seq<Move>
    requires IsEnumeration(o, pl)
  {
    SafeMoves(pl, c, EarlierCandidates(pl, o, c))
  }

  /** Some move of c captures, whether or not it is safe. */
  ghost predicate CaptureAvailable(pl: Placement, c: Color) {
    exists m :: IsBaseCandidate(pl, c, m) && m.captured.Some?
  }

  /** The legal moves of this revision: safe candidates, and captures only
      when any candidate captures, safe or not. */
  ghost predicate EarlierIsLegal(pl: Placement, c: Color, m: Move) {
    IsBaseCandidate(pl, c, m) && !InCheck(ApplyPlacement(pl, m), c)
    && (CaptureAvailable(pl, c) ==> m.captured.Some?)
  }

  ghost predicate EarlierHasNoLegalMove(pl: Placement, c: Color) {
    forall m :: !EarlierIsLegal(pl, c, m)
  }

  /** isLoneIsland of this revision: some legal move, and all of them quiet
      king moves; check is not tested. */
  ghost predicate EarlierLoneIslandFor(pl: Placement, c: Color) {
    !EarlierHasNoLegalMove(pl, c)
    && forall m :: EarlierIsLegal(pl, c, m) ==> m.piece.kind == King && m.captured.None?
  }

  /** The reason progressTurn records for colour c to move: the end tests
      in the order they run, each later one that holds overriding. */
  ghost function EarlierEndFor(pl: Placement, c: Color): Option<GameEndReason> {
    if OnlyKingLeftFor(pl, c) then Some(OnlyKingLeft)
    else if EarlierLoneIslandFor(pl, c) then Some(LoneIsland)
    else if !InCheck(pl, c) && EarlierHasNoLegalMove(pl, c) then Some(Stalemate)
    else if InCheck(pl, c) && EarlierHasNoLegalMove(pl, c) then Some(Checkmate)
    else None
  }

  /** EarlierEndFor from the outcomes of the four tests. */
  lemma EarlierEndCases(pl: Placement, c: Color, checkmate: bool, stalemate: bool, loneIsland: bool, onlyKingLeft: bool)
    requires checkmate == (InCheck(pl, c) && EarlierHasNoLegalMove(pl, c))
    requires stalemate == (!InCheck(pl, c) && EarlierHasNoLegalMove(pl, c))
    requires loneIsland == EarlierLoneIslandFor(pl, c) && onlyKingLeft == OnlyKingLeftFor(pl, c)
    ensures EarlierEndFor(pl, c) == if onlyKingLeft then Some(OnlyKingLeft)
                                    else if loneIsland then Some(LoneIsland)
                                    else if stalemate then Some(Stalemate)
                                    else if checkmate then Some(Checkmate)
                                    else None
  {
  }

  lemma EarlierCandidatesMembership(pl: Placement, o: seq<Location>, c: Color, m: Move)
    requires IsEnumeration(o, pl)
    ensures |Captures(Candidates(pl, o, c))| > 0 <==> CaptureAvailable(pl, c)
    ensures m in EarlierCandidates(pl, o, c) <==>
            IsBaseCandidate(pl, c, m) && (CaptureAvailable(pl, c) ==> m.captured.Some?)
  {
    var candidates := Candidates(pl, o, c);
    SplitMembership(candidates, m);
    CandidatesMembership(pl, o, c, m);
    if |Captures(candidates)| > 0 {
      var x := Captures(candidates)[0];
      SplitMembership(candidates, x);
      CandidatesMembership(pl, o, c, x);
    }
    if CaptureAvailable(pl, c) {
      var x :| IsBaseCandidate(pl, c, x) && x.captured.Some?;
      SplitMembership(candidates, x);
      CandidatesMembership(pl, o, c, x);
    }
  }

  /** getLegalMoves of this revision yields exactly its legal moves. */
  lemma EarlierLegalMembership(pl: Placement, o: seq<Location>, c: Color)
    requires IsEnumeration(o, pl)
    ensures forall m :: m in EarlierLegalMoves(pl, o, c) <==> EarlierIsLegal(pl, c, m)
    ensures |EarlierLegalMoves(pl, o, c)| == 0 <==> EarlierHasNoLegalMove(pl, c)
  {
    forall m ensures m in EarlierLegalMoves(pl, o, c) <==> EarlierIsLegal(pl, c, m) {
      EarlierCandidatesMembership(pl, o, c, m);
      SafeMovesMembership(pl, c, EarlierCandidates(pl, o, c), m);
    }
    if |EarlierLegalMoves(pl, o, c)| > 0 {
      assert EarlierLegalMoves(pl, o, c)[0] in EarlierLegalMoves(pl, o, c);
    }
  }

  /** The capture rule before the filter: when every capture leaves the
      king attacked, this revision offers no move at all, although a safe
      quiet move exists and the current revision accepts it. */
  lemma UnsafeCapturesBlockQuietMoves(pl: Placement, c: Color, q: Move)
    requires CaptureAvailable(pl, c)
    requires forall m :: IsBaseCandidate(pl, c, m) && m.captured.Some? ==> InCheck(ApplyPlacement(pl, m), c)
    requires !CaptureForced(pl, c)
    requires IsBaseCandidate(pl, c, q) && q.captured.None? && !IsPromotionMove(q)
    requires !InCheck(ApplyPlacement(pl, q), c)
    ensures EarlierHasNoLegalMove(pl, c)
    ensures IsLegal(pl, c, q)
  {
    assert q.(promotion := None) == q;
    assert PromotionFits(q);
    assert IsSafe(pl, c, q);
  }

  /** Moves are looked up by their squares only. */
  method FindMoveBySquares(moves: seq<Move>, from: Location, to: Location) returns (found: Option<Move>)
    ensures found.None? ==> forall m :: m in moves ==> !(m.from == from && m.to == to)
    ensures found.Some? ==> found.value in moves && found.value.from == from && found.value.to == to
  {
    for i := 0 to |moves|
      invariant forall j :: 0 <= j < i ==> !(moves[j].from == from && moves[j].to == to)
    {
      if LocationToKey(moves[i].from) == LocationToKey(from) && LocationToKey(moves[i].to) == LocationToKey(to) {
        LocationToKeyInjective(moves[i].from, from);
        LocationToKeyInjective(moves[i].to, to);
        return Some(moves[i]);
      }
    }
    return None;
  }

  // ------------------------------------------------------------- the game

  class EarlierGame {
    const board: Board
    var currentPlayer: Color
    var winner: Option<Color>
    var state: GameState
    var history: seq<Move>
    var turnCount: nat
    var endReason: Option<GameEndReason>
    var cachedLegalMoves: map<nat, seq<Move>>
    var cachedCheck: map<nat, CheckResult>
    /** The key order the entry for the current turn was computed under. */
    ghost var legalOrder: seq<Location>
    ghost var checkOrder: seq<Location>

    /** The board is well formed, no cache entry is filed under a turn that
        has not come yet, and the entries of the current turn are what the
        player to move would compute now. */
    ghost predicate Valid()
      reads this, board, board.squares
    {
      board.Valid() && TurnsBounded() && LegalCacheValid() && CheckCacheValid()
    }

    ghost predicate TurnsBounded()
      reads this`cachedLegalMoves, this`cachedCheck, this`turnCount
    {
      (forall t :: t in cachedLegalMoves ==> t <= turnCount)
      && (forall t :: t in cachedCheck ==> t <= turnCount)
    }

    ghost predicate LegalCacheValid()
      reads this`cachedLegalMoves, this`legalOrder, this`turnCount, this`currentPlayer, board`pieceByLocation
    {
      (turnCount in cachedLegalMoves ==>
            IsEnumeration(legalOrder, board.pieceByLocation)
            && cachedLegalMoves[turnCount] == EarlierLegalMoves(board.pieceByLocation, legalOrder, currentPlayer))
    }

    ghost predicate CheckCacheValid()
      reads this`cachedCheck, this`checkOrder, this`turnCount, this`currentPlayer, board`pieceByLocation
    {
      (turnCount in cachedCheck ==>
            IsEnumeration(checkOrder, board.pieceByLocation)
            && cachedCheck[turnCount] == CheckResult(InCheck(board.pieceByLocation, currentPlayer),
                                                     Checkers(board.pieceByLocation, checkOrder, currentPlayer)))
    }

    /** Nothing a player can see has changed. */
    twostate predicate Unmoved()
      reads this, board
    {
      board.pieceByLocation == old(board.pieceByLocation) && currentPlayer == old(currentPlayer)
      && turnCount == old(turnCount) && history == old(history) && state == old(state)
      && winner == old(winner) && endReason == old(endReason)
    }

    /** A game on the given board, or on a new board in the starting
        position, with Black to move. */
    constructor(initialBoard: Board?)
      requires initialBoard != null ==> initialBoard.Valid()
      ensures Valid()
      ensures initialBoard != null ==> board == initialBoard
      ensures initialBoard == null ==> forall l :: Lookup(board.pieceByLocation, l) == InitialPieceAt(l)
      ensures currentPlayer == Black && winner.None? && endReason.None? && state == Initial
      ensures turnCount == 0 && history == [] && cachedLegalMoves == map[] && cachedCheck == map[]
    {
      var b: Board;
      if initialBoard != null {
        b := initialBoard;
      } else {
        b := NewBoard();
      }
      board := b;
      currentPlayer, winner, endReason, state := Black, None, None, Initial;
      turnCount, history := 0, [];
      cachedLegalMoves, cachedCheck := map[], map[];
      legalOrder, checkOrder := [], [];
    }

    method SwitchPlayer()
      requires board.Valid() && TurnsBounded()
      modifies this`currentPlayer, this`turnCount
      ensures Valid()
      ensures currentPlayer == ReverseColor(old(currentPlayer)) && turnCount == old(turnCount) + 1
      ensures turnCount !in cachedLegalMoves && turnCount !in cachedCheck
    {
      currentPlayer := ReverseColor(currentPlayer);
      turnCount := turnCount + 1;
    }

    method StartGame() returns (success: bool, error: Option<GameError>)
      requires Valid()
      modifies this`state
      ensures Valid()
      ensures old(state) != Initial ==> !success && error == Some(GameAlreadyStarted) && state == old(state)
      ensures old(state) == Initial ==> success && error.None? && state == InPlay
    {
      if state != Initial {
        return false, Some(GameAlreadyStarted);
      }
      state := InPlay;
      return true, None;
    }

    method FinishGame(w: Option<Color>, reason: GameEndReason)
      requires Valid()
      modifies this`winner, this`endReason, this`state
      ensures Valid()
      ensures winner == w && endReason == Some(reason) && state == Finished
    {
      winner, endReason, state := w, Some(reason), Finished;
    }

    /** finishGame(w, reason) when `holds`, nothing otherwise. */
    method FinishIf(holds: bool, w: Option<Color>, reason: GameEndReason)
      requires Valid()
      modifies this`winner, this`endReason, this`state
      ensures Valid()
      ensures holds ==> winner == w && endReason == Some(reason) && state == Finished
      ensures !holds ==> winner == old(winner) && endReason == old(endReason) && state == old(state)
    {
      if holds {
        FinishGame(w, reason);
      }
    }

    /** checkForNextCheck: apply, test the check, roll back. */
    method CheckForNextCheck(move: Move, color: Color) returns (inCheck: bool)
      requires Valid() && Consistent(board.pieceByLocation, move)
      modifies board, board.squares
      ensures Valid()
      ensures board.pieceByLocation == old(board.pieceByLocation)
      ensures inCheck == InCheck(ApplyPlacement(old(board.pieceByLocation), move), color)
    {
      ghost var pl := board.pieceByLocation;
      var _ := ApplyMoveToBoard(board, move);
      var result := CheckForCheckByBoard(board, color);
      RollbackRestores(pl, move);
      RollbackMoveOnBoard(board, move);
      return result.isInCheck;
    }

    /** The filter of getLegalMoves by !checkForNextCheck. */
    method FilterNotInCheck(moves: seq<Move>, color: Color) returns (kept: seq<Move>)
      requires Valid()
      requires forall m :: m in moves ==> Consistent(board.pieceByLocation, m)
      modifies board, board.squares
      ensures Valid()
      ensures board.pieceByLocation == old(board.pieceByLocation)
      ensures kept == SafeMoves(old(board.pieceByLocation), color, moves)
    {
      ghost var pl := board.pieceByLocation;
      kept := [];
      for i := 0 to |moves|
        invariant Valid() && board.pieceByLocation == pl
        invariant kept == SafeMoves(pl, color, moves[..i])
      {
        var inCheck := CheckForNextCheck(moves[i], color);
        SafeMovesStep(pl, color, moves, i);
        if !inCheck {
          kept := kept + [moves[i]];
        }
      }
      assert moves[..|moves|] == moves;
    }

    /** generateCandidateMoves of this revision. */
    method GenerateCandidateMoves(color: Color) returns (moves: seq<Move>)
      requires Valid()
      ensures moves == EarlierCandidates(board.pieceByLocation, board.keyOrder, color)
    {
      var captureMoves, quietMoves := CollectCandidates(board, color);
      return if |captureMoves| > 0 then captureMoves else quietMoves;
    }

    /** getLegalMoves of this revision: for the player to move, the list
        cached for the current turn if there is one; otherwise the filtered
        candidates, cached when computed for the player to move. */
    method GetLegalMoves(color: Color) returns (moves: seq<Move>, ghost order: seq<Location>)
      requires Valid()
      modifies board, board.squares, this`cachedLegalMoves, this`legalOrder
      ensures Valid()
      ensures board.pieceByLocation == old(board.pieceByLocation)
      ensures IsEnumeration(order, board.pieceByLocation)
      ensures moves == EarlierLegalMoves(board.pieceByLocation, order, color)
    {
      var turn := turnCount;
      var isCurrentPlayer := color == currentPlayer;
      if isCurrentPlayer && turn in cachedLegalMoves {
        return cachedLegalMoves[turn], legalOrder;
      }
      order := board.keyOrder;
      var candidateMoves := GenerateCandidateMoves(color);
      forall m | m in candidateMoves ensures Consistent(board.pieceByLocation, m) {
        EarlierCandidatesMembership(board.pieceByLocation, order, color, m);
        BaseCandidateConsistent(board.pieceByLocation, color, m);
      }
      moves := FilterNotInCheck(candidateMoves, color);
      if isCurrentPlayer {
        cachedLegalMoves := cachedLegalMoves[turn := moves];
        legalOrder := order;
      }
    }

    /** checkForCheck of this revision, cached for the player to move. */
    method CheckForCheck(color: Color) returns (r: CheckResult, ghost order: seq<Location>)
      requires Valid()
      modifies this`cachedCheck, this`checkOrder
      ensures Valid()
      ensures IsEnumeration(order, board.pieceByLocation)
      ensures r == CheckResult(InCheck(board.pieceByLocation, color), Checkers(board.pieceByLocation, order, color))
    {
      var turn := turnCount;
      if color == currentPlayer && turn in cachedCheck {
        return cachedCheck[turn], checkOrder;
      }
      order := board.keyOrder;
      r := CheckForCheckByBoard(board, color);
      if color == currentPlayer {
        cachedCheck := cachedCheck[turn := r];
        checkOrder := order;
      }
    }

    method CheckForCheckmate(color: Color) returns (isInCheckmate: bool, checkers: seq<Location>)
      requires Valid()
      modifies board, board.squares, this`cachedLegalMoves, this`legalOrder, this`cachedCheck, this`checkOrder
      ensures Valid()
      ensures board.pieceByLocation == old(board.pieceByLocation)
      ensures isInCheckmate == (InCheck(board.pieceByLocation, color) && EarlierHasNoLegalMove(board.pieceByLocation, color))
      ensures forall l :: l in checkers <==>
                l in board.pieceByLocation && board.pieceByLocation[l].color == ReverseColor(color)
                && AttacksKingOf(board.pieceByLocation, l, color)
    {
      var check, checkOrd := CheckForCheck(color);
      CheckersMembership(board.pieceByLocation, checkOrd, color);
      var legalMoves, order := GetLegalMoves(color);
      EarlierLegalMembership(board.pieceByLocation, order, color);
      return check.isInCheck && |legalMoves| == 0, check.checkers;
    }

    method IsStalemate(color: Color) returns (r: bool)
      requires Valid()
      modifies board, board.squares, this`cachedLegalMoves, this`legalOrder, this`cachedCheck, this`checkOrder
      ensures Valid()
      ensures board.pieceByLocation == old(board.pieceByLocation)
      ensures r == (!InCheck(board.pieceByLocation, color) && EarlierHasNoLegalMove(board.pieceByLocation, color))
    {
      var check, _ := CheckForCheck(color);
      var legalMoves, order := GetLegalMoves(color);
      EarlierLegalMembership(board.pieceByLocation, order, color);
      return !check.isInCheck && |legalMoves| == 0;
    }

    method IsLoneIsland(color: Color) returns (r: bool)
      requires Valid()
      modifies board, board.squares, this`cachedLegalMoves, this`legalOrder
      ensures Valid()
      ensures board.pieceByLocation == old(board.pieceByLocation)
      ensures r == EarlierLoneIslandFor(board.pieceByLocation, color)
    {
      var legalMoves, order := GetLegalMoves(color);
      EarlierLegalMembership(board.pieceByLocation, order, color);
      if |legalMoves| == 0 {
        return false;
      }
      var kingMovesWithoutCapture := Quiets(KingMoves(legalMoves));
      LoneIslandCount(legalMoves);
      return |kingMovesWithoutCapture| == |legalMoves|;
    }

    /** The move applied, recorded, and the turn passed. */
    method Advance(move: Move)
      requires Valid() && Consistent(board.pieceByLocation, move)
      modifies board, board.squares, this`history, this`currentPlayer, this`turnCount
      ensures Valid()
      ensures board.pieceByLocation == ApplyPlacement(old(board.pieceByLocation), move)
      ensures history == old(history) + [move]
      ensures currentPlayer == ReverseColor(old(currentPlayer)) && turnCount == old(turnCount) + 1
    {
      RollbackRestores(board.pieceByLocation, move);
      var applied := ApplyMoveToBoard(board, move);
      history := history + [applied];
      SwitchPlayer();
    }

    /** The four end tests of progressTurn for `c`, each calling finishGame
        when it holds, so that the last one to hold is what stays recorded. */
    method EndTests(c: Color) returns (end: bool, w: Option<Color>, reason: Option<GameEndReason>)
      requires Valid()
      modifies board, board.squares, this`cachedLegalMoves, this`legalOrder, this`cachedCheck, this`checkOrder
      modifies this`winner, this`endReason, this`state
      ensures Valid()
      ensures board.pieceByLocation == old(board.pieceByLocation)
      ensures reason == EarlierEndFor(board.pieceByLocation, c) && end == reason.Some?
      ensures w == (if end then WinnerFor(reason.value, c) else None)
      ensures end ==> state == Finished && winner == w && endReason == reason
      ensures !end ==> state == old(state) && winner == old(winner) && endReason == old(endReason)
    {
      ghost var pl := board.pieceByLocation;
      var isInCheckmate, _ := CheckForCheckmate(c);
      FinishIf(isInCheckmate, Some(c), Checkmate);
      var isStalemate := IsStalemate(c);
      FinishIf(isStalemate, None, Stalemate);
      var isLoneIsland := IsLoneIsland(c);
      FinishIf(isLoneIsland, Some(c), LoneIsland);
      var isOnlyKingLeft := IsOnlyKingLeft(board, c);
      FinishIf(isOnlyKingLeft, Some(c), OnlyKingLeft);
      reason := if isOnlyKingLeft then Some(OnlyKingLeft)
                else if isLoneIsland then Some(LoneIsland)
                else if isStalemate then Some(Stalemate)
                else if isInCheckmate then Some(Checkmate)
                else None;
      end := reason.Some?;
      w := if end then WinnerFor(reason.value, c) else None;
      EarlierEndCases(pl, c, isInCheckmate, isStalemate, isLoneIsland, isOnlyKingLeft);
    }

    /** progressTurn of this revision: only the turn and the squares of the
        move are checked; the game state is not. */
    method ProgressTurn(color: Color, from: Location, to: Location, promotion: Option<PieceType>)
      returns (r: TurnResult)
      requires Valid()
      modifies board, board.squares, this`history, this`currentPlayer, this`turnCount
      modifies this`cachedLegalMoves, this`legalOrder, this`cachedCheck, this`checkOrder
      modifies this`winner, this`endReason, this`state
      ensures Valid()
      ensures color != old(currentPlayer) ==> r == Failure(NotYourTurn)
      ensures color == old(currentPlayer)
              && (forall m :: EarlierIsLegal(old(board.pieceByLocation), color, m) ==> !(m.from == from && m.to == to))
              ==> r == Failure(InvalidMove)
      ensures color == old(currentPlayer)
              && (exists m :: EarlierIsLegal(old(board.pieceByLocation), color, m) && m.from == from && m.to == to)
              ==> r.success
      ensures !r.success ==> Unmoved()
      ensures r.success ==>
                color == old(currentPlayer)
                && exists m :: EarlierIsLegal(old(board.pieceByLocation), color, m) && m.from == from && m.to == to
                               && board.pieceByLocation == ApplyPlacement(old(board.pieceByLocation), m)
                               && history == old(history) + [m]
      ensures r.success ==>
                currentPlayer == ReverseColor(color) && turnCount == old(turnCount) + 1
                && r.error.None? && r.endReason == EarlierEndFor(board.pieceByLocation, currentPlayer)
                && r.end == r.endReason.Some?
                && r.winner == (if r.end then WinnerFor(r.endReason.value, currentPlayer) else None)
                && (r.end ==> state == Finished && winner == r.winner && endReason == r.endReason)
                && (!r.end ==> state == old(state) && winner == old(winner) && endReason == old(endReason))
    {
      var opponent := ReverseColor(color);
      if color != currentPlayer {
        return Failure(NotYourTurn);
      }
      var found := FindLegalMove(color, from, to);
      if found.None? {
        return Failure(InvalidMove);
      }
      BaseCandidateConsistent(board.pieceByLocation, color, found.value);
      r := PlayMove(found.value, opponent);
    }

    /** The legal move of `color` between the two squares, if any. */
    method FindLegalMove(color: Color, from: Location, to: Location) returns (found: Option<Move>)
      requires Valid()
      modifies board, board.squares, this`cachedLegalMoves, this`legalOrder
      ensures Valid()
      ensures board.pieceByLocation == old(board.pieceByLocation)
      ensures found.None? ==> forall m :: EarlierIsLegal(board.pieceByLocation, color, m) ==> !(m.from == from && m.to == to)
      ensures found.Some? ==> EarlierIsLegal(board.pieceByLocation, color, found.value)
                              && found.value.from == from && found.value.to == to
    {
      var legalMoves, order := GetLegalMoves(color);
      EarlierLegalMembership(board.pieceByLocation, order, color);
      found := FindMoveBySquares(legalMoves, from, to);
    }

    /** The rest of a successful turn: the move played, then the end tests
        for the player now to move. */
    method PlayMove(move: Move, opponent: Color) returns (r: TurnResult)
      requires Valid() && Consistent(board.pieceByLocation, move)
      requires opponent == ReverseColor(currentPlayer)
      modifies board, board.squares, this`history, this`currentPlayer, this`turnCount
      modifies this`cachedLegalMoves, this`legalOrder, this`cachedCheck, this`checkOrder
      modifies this`winner, this`endReason, this`state
      ensures Valid()
      ensures board.pieceByLocation == ApplyPlacement(old(board.pieceByLocation), move)
      ensures history == old(history) + [move]
      ensures currentPlayer == opponent && turnCount == old(turnCount) + 1
      ensures r.success && r.error.None? && r.endReason == EarlierEndFor(board.pieceByLocation, opponent)
      ensures r.end == r.endReason.Some?
      ensures r.winner == (if r.end then WinnerFor(r.endReason.value, opponent) else None)
      ensures r.end ==> state == Finished && winner == r.winner && endReason == r.endReason
      ensures !r.end ==> state == old(state) && winner == old(winner) && endReason == old(endReason)
    {
      Advance(move);
      var end, w, reason := EndTests(opponent);
      return TurnResult(true, end, w, None, reason);
    }
  }
}
