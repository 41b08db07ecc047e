/** The computer player (src/engine/aiPlayer.ts): an iterative-deepening
    alpha-beta search over the game's search moves, memoised in a
    transposition table keyed by position, with the legal moves of each
    position ordered so that forcing moves (after which the opponent is in
    check or must capture) are searched first and at full depth. */
module Search {
  import opened Types
  import opened Collections
  import opened Geometry
  import opened Boards
  import opened Zobrist
  import opened Rules
  import opened Games
  import opened Transposition
  import opened Grouping
  import opened MoveOrder
  import opened Minimax
  import Evaluation

  const TimeLimitMsEasy: nat := 5000
  const TimeLimitMsHard: nat := 30000
  const InitialDepthEasy: int := 2
  const InitialDepthHard: int := 2
  const MaxDepthLimitEasy: int := 7
  const MaxDepthLimitHard: int := 10
  const MinDepthLimitEasy: int := 2
  const MinDepthLimitHard: int := 2
  /** Iterative deepening stops at this depth. */
  const MaxDepth: int := 10
  /** isTimeUp looks at the clock once every this many calls. */
  const BatchSize: nat := 20
  /** The bound on nested searches that stands in for termination. */
  const SearchFuel: nat := 1000

  function MinDepthLimit(level: DifficultyLevel): int {
    if level == Easy then MinDepthLimitEasy else MinDepthLimitHard
  }

  function MaxDepthLimit(level: DifficultyLevel): int {
    if level == Easy then MaxDepthLimitEasy else MaxDepthLimitHard
  }

  /** clampDepth: the depth brought into the level's range. */
  function ClampDepth(level: DifficultyLevel, depth: int): (r: int)
    ensures MinDepthLimit(level) <= r <= MaxDepthLimit(level)
    ensures MinDepthLimit(level) <= depth <= MaxDepthLimit(level) ==> r == depth
    ensures depth < MinDepthLimit(level) ==> r == MinDepthLimit(level)
    ensures depth > MaxDepthLimit(level) ==> r == MaxDepthLimit(level)
  {
    var lo, hi := MinDepthLimit(level), MaxDepthLimit(level);
    var raised := if lo > depth then lo else depth;
    if hi < raised then hi else raised
  }

  /** Clamping twice clamps once, and clamping keeps the order of depths. */
  lemma ClampDepthFacts(level: DifficultyLevel, a: int, b: int)
    ensures ClampDepth(level, ClampDepth(level, a)) == ClampDepth(level, a)
    ensures a <= b ==> ClampDepth(level, a) <= ClampDepth(level, b)
  {
  }

  /** How getNextMove moves the starting depth for the next call: one deeper
      after a deeper search finished in time, one shallower when even the
      first search ran out of time, never during a warm-up. */
  function NextInitialDepth(level: DifficultyLevel, depth: int, warmUp: bool,
                            baseSucceeded: bool, extraSucceeded: bool): (r: int)
    ensures MinDepthLimit(level) <= depth <= MaxDepthLimit(level) ==>
              MinDepthLimit(level) <= r <= MaxDepthLimit(level)
    ensures warmUp ==> r == depth
    ensures !warmUp && extraSucceeded ==> r == ClampDepth(level, depth + 1)
    ensures depth <= MaxDepthLimit(level) && !warmUp && extraSucceeded ==> r >= depth
    ensures !warmUp && baseSucceeded && !extraSucceeded ==> r == depth
  {
    if !warmUp && extraSucceeded then ClampDepth(level, depth + 1)
    else if !warmUp && !baseSucceeded then ClampDepth(level, depth - 1)
    else depth
  }

  /** What searchBestMove returns. */
  datatype ScoredMove = ScoredMove(move: Option<Move>, score: Score, minDepth: real)

  /** The key the table is looked up under: the game's position. */
  function Key(game: Game): PositionKey
    reads game, game.board
  {
    PositionKey(game.board.pieceByLocation, game.currentPlayer)
  }

  // ------------------------------------------------------- table entries

  function OnlyMoveOf(s: seq<Move>): Option<Move> {
    if |s| == 1 then Some(s[0]) else None
  }

  /** getTTEntry's end test, in its order: checkmate, stalemate, lone
      island, only king left. */
  ghost function EndReasonFor(pl: Placement, c: Color): Option<GameEndReason> {
    if InCheck(pl, c) && HasNoLegalMove(pl, c) then Some(Checkmate)
    else if !InCheck(pl, c) && HasNoLegalMove(pl, c) then Some(Stalemate)
    else if LoneIslandFor(pl, c) then Some(LoneIsland)
    else if OnlyKingLeftFor(pl, c) then Some(OnlyKingLeft)
    else None
  }

  /** The winner getTTEntry records for an ended position: nobody on
      stalemate, otherwise the side to move. */
  ghost function EndWinner(pl: Placement, c: Color): Option<Color> {
    if !InCheck(pl, c) && HasNoLegalMove(pl, c) then None else Some(c)
  }

  /** getTTEntry and the game's own end detection agree on whether a
      position has ended, though they name the reason in different orders. */
  lemma EndReasonAgrees(pl: Placement, c: Color)
    ensures EndReasonFor(pl, c).Some? <==> EndFor(pl, c).Some?
    ensures EndReasonFor(pl, c).Some? ==>
              EndWinner(pl, c) == (if EndReasonFor(pl, c) == Some(Stalemate) then None else Some(c))
  {
  }

  /** The entry getTTEntry builds for an ended position; it is not stored. */
  ghost function EndedEntry(pl: Placement, c: Color): Entry {
    Entry(Some([]), Some([]), Some([]), Some(false), None, Some(true),
          EndReasonFor(pl, c), EndWinner(pl, c), None, None, None)
  }

  /** The entry getTTEntry stores for a position that has not ended, from
      its legal list s and the ordering of s. */
  function OrderedEntry(s: seq<Move>, top: seq<Move>, bottom: seq<Move>): Entry {
    Entry(Some(s), Some(top), Some(bottom), Some(|s| == 1), OnlyMoveOf(s), Some(false),
          None, None, None, None, None)
  }

  /** The five fields whose presence makes getTTEntry return a stored entry
      as it is. */
  predicate Complete(e: Entry) {
    e.legalMoves.Some? && e.orderedMovesTop.Some? && e.orderedMovesBottom.Some?
    && e.hasOnlyMove.Some? && e.isEnded.Some?
  }

  /** What a stored entry may say about its position: a legal list, a legal
      best move, and, once ordered, the summary of the legal list for a
      position that has not ended. */
  ghost predicate EntrySound(k: PositionKey, e: Entry) {
    var pl, c := k.placement, k.side;
    (e.legalMoves.Some? ==> IsLegalList(pl, c, e.legalMoves.value))
    && (e.bestMove.Some? ==> IsLegal(pl, c, e.bestMove.value))
    && (e.orderedMovesTop.None? ==>
          e.orderedMovesBottom.None? && e.hasOnlyMove.None? && e.onlyMove.None? && e.isEnded.None?)
    && (e.orderedMovesTop.Some? ==>
          e.legalMoves.Some? && e.orderedMovesBottom.Some?
          && e.hasOnlyMove == Some(|e.legalMoves.value| == 1) && e.onlyMove == OnlyMoveOf(e.legalMoves.value)
          && e.isEnded == Some(false) && EndReasonFor(pl, c).None?
          && Ordered(pl, c, e.legalMoves.value, e.orderedMovesTop.value, e.orderedMovesBottom.value))
  }

  ghost predicate TableSound(s: seq<(PositionKey, Entry)>) {
    forall p :: p in s ==> EntrySound(p.0, p.1)
  }

  /** The only move searchBestMove searches at the node's own depth. */
  function OnlyTarget(e: Entry): Option<Move> {
    if e.hasOnlyMove == Some(true) && e.onlyMove.Some? then e.onlyMove else None
  }

  /** The moves searched one ply below the node: the top list, else the
      legal list. */
  function Primary(e: Entry): seq<Move> {
    e.orderedMovesTop.GetOr(e.legalMoves.GetOr([]))
  }

  /** The moves searched two plies below the node: the bottom list. */
  function Secondary(e: Entry): seq<Move> {
    e.orderedMovesBottom.GetOr([])
  }

  /** What searchBestMove relies on: every move it may search or return is
      legal. */
  ghost predicate Searchable(pl: Placement, c: Color, e: Entry) {
    AllLegal(pl, c, Primary(e)) && AllLegal(pl, c, Secondary(e))
    && (e.onlyMove.Some? ==> IsLegal(pl, c, e.onlyMove.value))
    && (e.bestMove.Some? ==> IsLegal(pl, c, e.bestMove.value))
  }

  lemma SoundSearchable(k: PositionKey, e: Entry)
    requires EntrySound(k, e)
    ensures Searchable(k.placement, k.side, e)
  {
    var pl, c := k.placement, k.side;
    if e.legalMoves.Some? {
      var s := e.legalMoves.value;
      LegalListMembership(pl, c, s);
      if e.orderedMovesTop.Some? {
        OrderedLegal(pl, c, s, e.orderedMovesTop.value, e.orderedMovesBottom.value);
        if |s| == 1 {
          assert s[0] in s;
        }
      }
    }
  }

  lemma EndedSearchable(pl: Placement, c: Color)
    ensures Searchable(pl, c, EndedEntry(pl, c))
  {
  }

  /** An entry found in a sound table is sound. */
  lemma GetSound(s: seq<(PositionKey, Entry)>, k: PositionKey)
    requires TableSound(s)
    ensures EntrySound(k, Get(s, k).GetOr(EmptyEntry))
  {
    GetMembership(s, k);
  }

  /** setEntry of a sound entry keeps the table sound. */
  lemma StoredSound(s: seq<(PositionKey, Entry)>, maxSize: nat, k: PositionKey, e: Entry)
    requires TableSound(s) && EntrySound(k, e)
    ensures TableSound(Stored(s, maxSize, k, e))
  {
    StoredPairs(s, maxSize, k, e);
  }

  /** The entry updateSearchWindow stores is sound when the best move is
      legal. */
  lemma WindowSound(k: PositionKey, prev: Entry, depth: real, score: Score, bestMove: Option<Move>)
    requires EntrySound(k, prev)
    requires bestMove.Some? ==> IsLegal(k.placement, k.side, bestMove.value)
    ensures EntrySound(k, Window(prev, depth, score, bestMove))
  {
  }

  /** The entry the classification loop stores for a child: the child's
      legal list added to an entry that has none. */
  lemma ChildEntrySound(k: PositionKey, prev: Entry, s: seq<Move>)
    requires EntrySound(k, prev) && prev.legalMoves.None?
    requires IsLegalList(k.placement, k.side, s)
    ensures EntrySound(k, prev.(legalMoves := Some(s)))
  {
  }

  /** The stored summary of a position that has not ended is sound. */
  lemma OrderedEntrySound(pl: Placement, c: Color, s: seq<Move>, top: seq<Move>, bottom: seq<Move>)
    requires IsLegalList(pl, c, s) && Ordered(pl, c, s, top, bottom) && EndReasonFor(pl, c).None?
    ensures EntrySound(PositionKey(pl, c), OrderedEntry(s, top, bottom))
  {
  }

  /** The entry getTTEntry stores for a position that has not ended, over
      the entry prev it found: the ordered legal list, the legal list being
      prev's when prev has one. */
  ghost predicate FreshlyOrdered(pl: Placement, c: Color, prev: Entry, e: Entry) {
    e.legalMoves.Some? && e.orderedMovesTop.Some? && e.orderedMovesBottom.Some?
    && e == OrderedEntry(e.legalMoves.value, e.orderedMovesTop.value, e.orderedMovesBottom.value)
    && IsLegalList(pl, c, e.legalMoves.value)
    && (prev.legalMoves.Some? ==> e.legalMoves == prev.legalMoves)
    && Ordered(pl, c, e.legalMoves.value, e.orderedMovesTop.value, e.orderedMovesBottom.value)
  }

  /** The table serves a stored search result for a node of this depth. */
  predicate Hit(e: Entry, depth: int) {
    e.depth.GetOr(0.0) >= depth as real && e.bestMove.Some? && e.score.Some?
  }

  /** The result of a leaf over the entry e: the entry's own stored result
      when it has a positive depth, otherwise the static evaluation at
      depth 0. */
  function LeafOf(e: Entry, evaluation: Score): ScoredMove {
    var trust := e.depth.GetOr(0.0);
    if trust > 0.0 then ScoredMove(e.bestMove, e.score.GetOr(Fin(0)), trust)
    else ScoredMove(None, evaluation, 0.0)
  }

  /** setTTDepthInfo keeps the stored depth when it is non-zero and at least
      the new one. */
  predicate KeepsDepth(e: Entry, depth: real) {
    e.depth.Some? && e.depth.value != 0.0 && e.depth.value >= depth
  }

  // ------------------------------------------------------- the finding

  /** The best-move list after the only-move search as the source writes it
      (aiPlayer.ts:229): the child's own best reply. */
  function OnlyMoveTopAsWritten(nextMove: Option<Move>): seq<Move> {
    if nextMove.Some? then [nextMove.value] else []
  }

  /** The list as intended: the only move itself. */
  function OnlyMoveTop(move: Move): seq<Move> {
    [move]
  }

  /** A legal move names a piece of the colour that makes it. */
  lemma LegalMoveColor(pl: Placement, c: Color, m: Move)
    requires IsLegal(pl, c, m)
    ensures m.piece.color == c
  {
  }

  /** As written, the list holds the opponent's reply, which is never a
      legal move for the side to move; a score from the re-search of that
      move that does not beat the first leaves it in place, so it becomes
      the position's best move. */
  lemma OnlyMoveTopAsWrittenWrong(pl: Placement, c: Color, m: Move, reply: Move, t: Tally<Move>,
                                  isMax: bool, again: Child<Move>, drop: nat)
    requires IsLegal(pl, c, m) && IsLegal(ApplyPlacement(pl, m), ReverseColor(c), reply)
    requires t.top == OnlyMoveTopAsWritten(Some(reply))
    requires Better(isMax, t.best, again.score)
    ensures reply in t.top && !IsLegal(pl, c, reply)
    ensures Step(isMax, t, again, drop).top == [reply]
  {
    LegalMoveColor(ApplyPlacement(pl, m), ReverseColor(c), reply);
    if IsLegal(pl, c, reply) {
      LegalMoveColor(pl, c, reply);
    }
    assert !again.score.Below(again.score);
    ScoreOrderTotal(again.score, t.best, again.score);
  }

  /** As intended, the list holds the only move, which is legal. */
  lemma OnlyMoveTopLegal(pl: Placement, c: Color, m: Move)
    requires IsLegal(pl, c, m)
    ensures AllLegal(pl, c, OnlyMoveTop(m))
  {
  }

  /** A step leaves on the best list only moves that were on it or the move
      just searched. */
  lemma StepTop(isMax: bool, t: Tally<Move>, c: Child<Move>, drop: nat)
    ensures forall m :: m in Step(isMax, t, c, drop).top ==> m in t.top || m == c.move
  {
  }

  // ------------------------------------------------------- the player

  /** The search restored the game: same position, same side to move, same
      move history. */
  twostate predicate Restored(game: Game)
    reads game, game.board
  {
    game.board.pieceByLocation == old(game.board.pieceByLocation)
    && game.currentPlayer == old(game.currentPlayer) && game.history == old(game.history)
  }

  class AIPlayer {
    const timeLimitMs: nat
    var initialDepth: int
    const tt: TranspositionTable<PositionKey>
    var timeExceeded: bool
    var rootColor: Color
    const difficulty: DifficultyLevel
    var interrupted: bool
    /** The Zobrist key table of the games the player builds. */
    const keys: Keys

    /** The table is sound, the starting depth is in the level's range, and
        time has not run out (isTimeUp never reports it). */
    ghost predicate Valid()
      reads this, tt
    {
      tt.Valid() && TableSound(tt.entries) && !timeExceeded
      && MinDepthLimit(difficulty) <= initialDepth <= MaxDepthLimit(difficulty)
    }

    constructor(level: DifficultyLevel, zobristKeys: Keys)
      ensures Valid() && fresh(tt) && tt.entries == [] && tt.maxSize == DefaultMaxSize
      ensures difficulty == level && keys == zobristKeys
      ensures timeLimitMs == (if level == Easy then TimeLimitMsEasy else TimeLimitMsHard)
      ensures initialDepth == ClampDepth(level, if level == Easy then InitialDepthEasy else InitialDepthHard)
      ensures rootColor == White && !interrupted
    {
      tt := new TranspositionTable(DefaultMaxSize);
      difficulty := level;
      keys := zobristKeys;
      timeLimitMs := if level == Easy then TimeLimitMsEasy else TimeLimitMsHard;
      var depth := if level == Easy then InitialDepthEasy else InitialDepthHard;
      initialDepth := ClampDepth(level, depth);
      timeExceeded := false;
      rootColor := White;
      interrupted := false;
    }

    /** interrupt: the flag the clock check consumes. */
    method Interrupt()
      modifies this`interrupted
      ensures interrupted
    {
      interrupted := true;
    }

    /** isTimeUp: a fresh call counter each time, counted once, so it is
        always below the batch size and the clock is never consulted. */
    method IsTimeUp() returns (up: bool)
      ensures !up
    {
      var count := 0;
      count := count + 1;
      up := count >= BatchSize;
    }

    /** evaluate: the opponent's material minus the root player's. */
    method Evaluate(game: Game) returns (score: Score)
      requires game.Valid()
      ensures score == Fin(Evaluation.Score(game.board.pieceByLocation, game.board.keyOrder, rootColor))
    {
      var myMaterial := Evaluation.Material(game.board, rootColor);
      var oppMaterial := Evaluation.Material(game.board, ReverseColor(rootColor));
      score := Fin(oppMaterial - myMaterial);
    }

    /** setTTDepthInfo: record a search result unless the table already holds
        one at least as deep. */
    method SetTTDepthInfo(game: Game, depth: real, score: Score, bestMove: Option<Move>)
      requires Valid() && game.Valid()
      requires bestMove.Some? ==> IsLegal(game.board.pieceByLocation, game.currentPlayer, bestMove.value)
      modifies tt
      ensures Valid()
      ensures var prev := Get(old(tt.entries), Key(game)).GetOr(EmptyEntry);
              tt.entries == if KeepsDepth(prev, depth) then old(tt.entries)
                            else Stored(old(tt.entries), tt.maxSize, Key(game),
                                        Window(prev, depth, score, bestMove))
    {
      var key := Key(game);
      var entry := tt.GetEntry(key).GetOr(EmptyEntry);
      if entry.depth.Some? && entry.depth.value != 0.0 && entry.depth.value >= depth {
        return;
      }
      GetSound(tt.entries, key);
      WindowSound(key, entry, depth, score, bestMove);
      StoredSound(tt.entries, tt.maxSize, key, Window(entry, depth, score, bestMove));
      tt.UpdateSearchWindow(key, depth, score, bestMove);
    }

    /** The legal list of the side to move, from the table when it has one,
        otherwise generated and recorded in the table. */
    method ChildLegalMoves(game: Game) returns (replies: seq<Move>)
      requires Valid() && game.Valid()
      modifies tt, game, game.board, game.board.squares
      ensures Valid() && game.Valid() && Restored(game)
      ensures IsLegalList(game.board.pieceByLocation, game.currentPlayer, replies)
    {
      var key := Key(game);
      var next := tt.GetEntry(key).GetOr(EmptyEntry);
      GetSound(tt.entries, key);
      if next.legalMoves.Some? {
        replies := next.legalMoves.value;
      } else {
        replies := game.GetLegalMoves(game.currentPlayer);
        ChildEntrySound(key, next, replies);
        StoredSound(tt.entries, tt.maxSize, key, next.(legalMoves := Some(replies)));
        tt.SetEntry(key, next.(legalMoves := Some(replies)));
      }
    }

    /** What the classification loop asks of the position after a move: the
        mover's opponent, now to move, has count legal replies, and forcing
        says whether it is in check or must capture. */
    method ChildInfo(game: Game) returns (forcing: bool, count: nat, ghost replies: seq<Move>)
      requires Valid() && game.Valid()
      modifies tt, game, game.board, game.board.squares
      ensures Valid() && game.Valid() && Restored(game)
      ensures var pl, c := game.board.pieceByLocation, game.currentPlayer;
              forcing == (InCheck(pl, c) || CaptureForced(pl, c)) && IsLegalList(pl, c, replies) && count == |replies|
    {
      var legal := ChildLegalMoves(game);
      replies := legal;
      var check := game.CheckForCheck(game.currentPlayer);
      var forced := game.IsCaptureForced();
      forcing := check.isInCheck || forced;
      count := |legal|;
    }

    /** The body of the classification loop for one legal move: play it,
        count the opponent's legal replies, test whether the opponent is in
        check or must capture, and take the move back. */
    method ReplyInfo(game: Game, move: Move) returns (forcing: bool, count: nat)
      requires Valid() && game.Valid()
      requires IsLegal(game.board.pieceByLocation, game.currentPlayer, move)
      modifies tt, game, game.board, game.board.squares
      ensures Valid() && game.Valid() && Restored(game)
      ensures forcing == Forcing(game.board.pieceByLocation, game.currentPlayer, move)
      ensures ReplyCount(game.board.pieceByLocation, game.currentPlayer, move, count)
    {
      ghost var pl, c := game.board.pieceByLocation, game.currentPlayer;
      LegalConsistent(pl, c, move);
      RollbackRestores(pl, move);
      game.ApplyMoveForSearch(move);
      ghost var replies;
      forcing, count, replies := ChildInfo(game);
      game.RollbackMoveForSearch();
    }

    /** The classification loop of getTTEntry: forcing moves are recorded
        with their reply counts (countRecord), the others pushed to the
        bottom list. */
    method ClassifyMoves(game: Game, moves: seq<Move>)
        returns (picked: seq<Counted<Move>>, bottom: seq<Move>, ghost flags: seq<(bool, nat)>)
      requires Valid() && game.Valid()
      requires AllLegal(game.board.pieceByLocation, game.currentPlayer, moves)
      modifies tt, game, game.board, game.board.squares
      ensures Valid() && game.Valid() && Restored(game)
      ensures Classified(game.board.pieceByLocation, game.currentPlayer, moves, flags)
      ensures picked == Picked(moves, flags) && bottom == Rest(moves, flags)
    {
      ghost var pl, c := game.board.pieceByLocation, game.currentPlayer;
      picked, bottom, flags := [], [], [];
      for i := 0 to |moves|
        invariant Valid() && game.Valid()
        invariant game.board.pieceByLocation == pl && game.currentPlayer == c
        invariant game.history == old(game.history)
        invariant Classified(pl, c, moves[..i], flags)
        invariant picked == Picked(moves[..i], flags) && bottom == Rest(moves[..i], flags)
      {
        assert moves[i] in moves;
        var forcing, count := ReplyInfo(game, moves[i]);
        if forcing {
          picked := picked + [(moves[i], count)];
        } else {
          bottom := bottom + [moves[i]];
        }
        assert ForcingTest(pl, c)(moves[i]) == forcing;
        assert ReplyTest(pl, c)(moves[i], count);
        FlagsFitStep(moves, flags, ForcingTest(pl, c), ReplyTest(pl, c), i, count);
        flags := flags + [(forcing, count)];
      }
      assert moves[..|moves|] == moves;
    }

    /** The top list: the moves of countRecord's buckets, in ascending order
        of the counts (integer keys enumerate in ascending order and are
        sorted again). Every key has a bucket, so the `continue` for a
        missing one is never taken. */
    method GroupTop(picked: seq<Counted<Move>>) returns (top: seq<Move>)
      ensures top == TopOrder(picked)
    {
      var sortedCounts := SortAscending(DistinctCounts(picked));
      top := [];
      for k := 0 to |sortedCounts|
        invariant top == Items(Grouped(picked, sortedCounts[..k]))
      {
        GroupedItemsStep(picked, sortedCounts, k);
        top := top + Items(Bucket(picked, sortedCounts[k]));
      }
      assert sortedCounts[..|sortedCounts|] == sortedCounts;
    }

    /** The end tests of getTTEntry. */
    method EndChecks(game: Game) returns (ended: bool, reason: Option<GameEndReason>, winner: Option<Color>)
      requires game.Valid()
      modifies game, game.board, game.board.squares
      ensures game.Valid() && Restored(game)
      ensures reason == EndReasonFor(game.board.pieceByLocation, game.currentPlayer)
      ensures ended == reason.Some?
      ensures winner == EndWinner(game.board.pieceByLocation, game.currentPlayer)
    {
      var currentPlayer := game.currentPlayer;
      var isInCheckmate, _ := game.CheckForCheckmate(currentPlayer);
      var isStalemate := game.IsStalemate(currentPlayer);
      var isLoneIsland := game.IsLoneIsland(currentPlayer);
      var isOnlyKingLeft := IsOnlyKingLeft(game.board, currentPlayer);
      ended := isInCheckmate || isStalemate || isLoneIsland || isOnlyKingLeft;
      reason := if isInCheckmate then Some(Checkmate) else if isStalemate then Some(Stalemate)
                else if isLoneIsland then Some(LoneIsland) else if isOnlyKingLeft then Some(OnlyKingLeft)
                else None;
      winner := if isStalemate then None else Some(currentPlayer);
    }

    /** The part of getTTEntry for a position that has not ended: the legal
        list (from the entry when it has one) and its ordering. */
    method OrderPosition(game: Game, entry: Entry) returns (legal: seq<Move>, top: seq<Move>, bottom: seq<Move>)
      requires Valid() && game.Valid() && EntrySound(Key(game), entry)
      modifies tt, game, game.board, game.board.squares
      ensures Valid() && game.Valid() && Restored(game)
      ensures IsLegalList(game.board.pieceByLocation, game.currentPlayer, legal)
      ensures entry.legalMoves.Some? ==> legal == entry.legalMoves.value
      ensures Ordered(game.board.pieceByLocation, game.currentPlayer, legal, top, bottom)
    {
      ghost var pl, c := game.board.pieceByLocation, game.currentPlayer;
      if entry.legalMoves.Some? {
        legal := entry.legalMoves.value;
      } else {
        legal := game.GetLegalMoves(game.currentPlayer);
      }
      LegalListMembership(pl, c, legal);
      var picked;
      ghost var flags;
      picked, bottom, flags := ClassifyMoves(game, legal);
      top := GroupTop(picked);
    }

    /** getTTEntry: a stored entry with the five fields is returned as it
        is; an ended position gets an entry that is not stored; otherwise the
        position's legal list is ordered and the result stored. */
    method GetTTEntry(game: Game) returns (e: Entry)
      requires Valid() && game.Valid()
      modifies tt, game, game.board, game.board.squares
      ensures Valid() && game.Valid() && Restored(game)
      ensures var prev := Get(old(tt.entries), Key(game)).GetOr(EmptyEntry);
              var pl, c := game.board.pieceByLocation, game.currentPlayer;
              (Complete(prev) ==> e == prev && tt.entries == old(tt.entries))
              && (!Complete(prev) && EndReasonFor(pl, c).Some? ==> e == EndedEntry(pl, c) && tt.entries == old(tt.entries))
              && (!Complete(prev) && EndReasonFor(pl, c).None? ==>
                    Get(tt.entries, Key(game)) == Some(e) && FreshlyOrdered(pl, c, prev, e))
      ensures Searchable(game.board.pieceByLocation, game.currentPlayer, e)
    {
      var key := Key(game);
      var entry := tt.GetEntry(key).GetOr(EmptyEntry);
      GetSound(tt.entries, key);
      SoundSearchable(key, entry);
      if Complete(entry) {
        return entry;
      }
      var ended, reason, winner := EndChecks(game);
      if ended {
        EndedSearchable(key.placement, key.side);
        return Entry(Some([]), Some([]), Some([]), Some(false), None, Some(true), reason, winner, None, None, None);
      }
      var legal, top, bottom := OrderPosition(game, entry);
      e := StoreOrdered(game, legal, top, bottom);
    }

    /** The last step of getTTEntry: the entry for an ordered legal list,
        stored under the position. */
    method StoreOrdered(game: Game, legal: seq<Move>, top: seq<Move>, bottom: seq<Move>) returns (e: Entry)
      requires Valid() && game.Valid()
      requires var pl, c := game.board.pieceByLocation, game.currentPlayer;
               IsLegalList(pl, c, legal) && Ordered(pl, c, legal, top, bottom) && EndReasonFor(pl, c).None?
      modifies tt
      ensures Valid() && e == OrderedEntry(legal, top, bottom)
      ensures tt.entries == Stored(old(tt.entries), tt.maxSize, Key(game), e) && Get(tt.entries, Key(game)) == Some(e)
      ensures Searchable(game.board.pieceByLocation, game.currentPlayer, e)
    {
      var key := Key(game);
      e := OrderedEntry(legal, top, bottom);
      OrderedEntrySound(key.placement, key.side, legal, top, bottom);
      SoundSearchable(key, e);
      StoredSound(tt.entries, tt.maxSize, key, e);
      StoredGet(tt.entries, tt.maxSize, key, e);
      tt.SetEntry(key, e);
    }

    // ----------------------------------------------------- searchBestMove

    /** searchBestMove. A position with a stored search result at least as
        deep is answered from the table; an ended position scores its winner
        from the root's side; a leaf (depth exhausted, time up, or the
        nesting bound reached) is answered by the table's shallower result
        or by the static evaluation; any other node is expanded. */
    method Search(game: Game, depth: int, alpha: Score, beta: Score, fuel: nat) returns (r: ScoredMove)
      requires Valid() && game.Valid()
      modifies this`timeExceeded, tt, game, game.board, game.board.squares
      ensures Valid() && game.Valid() && Restored(game)
      ensures r.move.Some? ==> IsLegal(game.board.pieceByLocation, game.currentPlayer, r.move.value)
      ensures var prev := Get(old(tt.entries), Key(game)).GetOr(EmptyEntry);
              var pl, c := game.board.pieceByLocation, game.currentPlayer;
              (Complete(prev) && Hit(prev, depth) ==>
                 r == ScoredMove(prev.bestMove, prev.score.value, prev.depth.GetOr(0.0)))
              && (!Complete(prev) && EndReasonFor(pl, c).Some? ==>
                    r == ScoredMove(None, TerminalScore(EndWinner(pl, c), rootColor), depth as real))
              && (depth <= 0 && (if Complete(prev) then !Hit(prev, depth) else EndReasonFor(pl, c).None?) ==>
                    r == LeafOf(if Complete(prev) then prev else EmptyEntry,
                                Fin(Evaluation.Score(pl, game.board.keyOrder, rootColor))))
      decreases fuel, 6
    {
      var up := IsTimeUp();
      timeExceeded := timeExceeded || up;
      GetSound(tt.entries, Key(game));
      var entry := GetTTEntry(game);
      r := Decide(game, entry, depth, alpha, beta, fuel);
    }

    /** searchBestMove once the entry of the position is at hand. */
    method Decide(game: Game, entry: Entry, depth: int, alpha: Score, beta: Score, fuel: nat) returns (r: ScoredMove)
      requires Valid() && game.Valid() && Searchable(game.board.pieceByLocation, game.currentPlayer, entry)
      modifies this`timeExceeded, tt, game, game.board, game.board.squares
      ensures Valid() && game.Valid() && Restored(game)
      ensures r.move.Some? ==> IsLegal(game.board.pieceByLocation, game.currentPlayer, r.move.value)
      ensures Hit(entry, depth) ==> r == ScoredMove(entry.bestMove, entry.score.value, entry.depth.GetOr(0.0))
      ensures !Hit(entry, depth) && entry.isEnded == Some(true) ==>
                r == ScoredMove(None, TerminalScore(entry.winner, rootColor), depth as real)
      ensures !Hit(entry, depth) && entry.isEnded != Some(true) && depth <= 0 ==>
                r == LeafOf(entry, Fin(Evaluation.Score(game.board.pieceByLocation, game.board.keyOrder, rootColor)))
      decreases fuel, 5
    {
      var trust := entry.depth.GetOr(0.0);
      if trust >= depth as real && entry.bestMove.Some? && entry.score.Some? {
        return ScoredMove(entry.bestMove, entry.score.value, trust);
      }
      if entry.isEnded == Some(true) {
        var score := TerminalScore(entry.winner, rootColor);
        SetTTDepthInfo(game, depth as real, score, None);
        return ScoredMove(None, score, depth as real);
      }
      if depth <= 0 || timeExceeded || fuel == 0 {
        r := Leaf(game, entry);
        return;
      }
      ghost var tally, children;
      r, tally, children := Expand(game, entry, depth, alpha, beta, fuel);
    }

    /** The leaf of searchBestMove. */
    method Leaf(game: Game, entry: Entry) returns (r: ScoredMove)
      requires Valid() && game.Valid() && Searchable(game.board.pieceByLocation, game.currentPlayer, entry)
      modifies tt
      ensures Valid()
      ensures r == LeafOf(entry, Fin(Evaluation.Score(game.board.pieceByLocation, game.board.keyOrder, rootColor)))
      ensures r.move.Some? ==> IsLegal(game.board.pieceByLocation, game.currentPlayer, r.move.value)
    {
      var trust := entry.depth.GetOr(0.0);
      if trust > 0.0 {
        return ScoredMove(entry.bestMove, entry.score.GetOr(Fin(0)), trust);
      }
      var score := Evaluate(game);
      SetTTDepthInfo(game, 0.0, score, None);
      r := ScoredMove(None, score, 0.0);
    }

    /** One move searched: played, searched from the opponent's side, taken
        back. */
    method SearchChild(game: Game, move: Move, depth: int, alpha: Score, beta: Score, fuel: nat)
        returns (r: ScoredMove)
      requires Valid() && game.Valid() && fuel > 0
      requires IsLegal(game.board.pieceByLocation, game.currentPlayer, move)
      modifies this`timeExceeded, tt, game, game.board, game.board.squares
      ensures Valid() && game.Valid() && Restored(game)
      decreases fuel, -1
    {
      LegalConsistent(game.board.pieceByLocation, game.currentPlayer, move);
      RollbackRestores(game.board.pieceByLocation, move);
      game.ApplyMoveForSearch(move);
      r := Search(game, depth, alpha, beta, fuel - 1);
      game.RollbackMoveForSearch();
    }

    /** One child of a tier searched and folded into the tally; the child's
        window is the tally's. */
    method TierStep(game: Game, move: Move, isMax: bool, t: Tally<Move>, childDepth: int, drop: nat, fuel: nat)
        returns (t': Tally<Move>, ghost child: Child<Move>)
      requires Valid() && game.Valid() && fuel > 0
      requires IsLegal(game.board.pieceByLocation, game.currentPlayer, move)
      requires AllLegal(game.board.pieceByLocation, game.currentPlayer, t.top)
      modifies this`timeExceeded, tt, game, game.board, game.board.squares
      ensures Valid() && game.Valid() && Restored(game)
      ensures child.move == move && t' == Step(isMax, t, child, drop)
      ensures AllLegal(game.board.pieceByLocation, game.currentPlayer, t'.top)
      decreases fuel, 0
    {
      var result := SearchChild(game, move, childDepth, t.alpha, t.beta, fuel);
      child := Child(move, result.score, result.minDepth);
      StepTop(isMax, t, child, drop);
      t' := Step(isMax, t, Child(move, result.score, result.minDepth), drop);
    }

    /** One tier of searchBestMove: the moves searched in order at the
        child depth, each updating the tally, until the window closes. The
        ghost trace is the searched children. */
    method SearchTier(game: Game, moves: seq<Move>, isMax: bool, t0: Tally<Move>, childDepth: int, drop: nat,
                      fuel: nat)
        returns (t: Tally<Move>, ghost trace: seq<Child<Move>>)
      requires Valid() && game.Valid() && fuel > 0
      requires AllLegal(game.board.pieceByLocation, game.currentPlayer, moves)
      requires AllLegal(game.board.pieceByLocation, game.currentPlayer, t0.top)
      modifies this`timeExceeded, tt, game, game.board, game.board.squares
      ensures Valid() && game.Valid() && Restored(game)
      ensures t == Scan(isMax, t0, trace, drop)
      ensures AllLegal(game.board.pieceByLocation, game.currentPlayer, t.top)
      ensures Follows(trace, moves) && OpenAlong(isMax, t0, trace, drop)
      ensures |trace| < |moves| ==> Closed(t)
      decreases fuel, 1
    {
      ghost var pl, c := game.board.pieceByLocation, game.currentPlayer;
      t, trace := t0, [];
      var i := 0;
      while i < |moves|
        invariant 0 <= i <= |moves| && |trace| == i
        invariant Valid() && game.Valid()
        invariant game.board.pieceByLocation == pl && game.currentPlayer == c
        invariant game.history == old(game.history)
        invariant t == Scan(isMax, t0, trace, drop) && AllLegal(pl, c, t.top)
        invariant Follows(trace, moves) && OpenAlong(isMax, t0, trace, drop)
        decreases |moves| - i
      {
        if Closed(t) {
          break;
        }
        assert moves[i] in moves;
        ghost var child;
        ghost var before := trace;
        t, child := TierStep(game, moves[i], isMax, t, childDepth, drop, fuel);
        TierAppend(isMax, t0, before, child, drop, moves);
        trace := trace + [child];
        i := i + 1;
      }
    }

    /** The search of the only legal move, when there is one, at the
        node's own depth: its score and minDepth replace the tally's, and its
        move becomes the list of best moves. */
    method SearchOnlyMove(game: Game, onlyMove: Option<Move>, depth: int, t0: Tally<Move>, fuel: nat)
        returns (t: Tally<Move>, ghost only: seq<Child<Move>>)
      requires Valid() && game.Valid() && fuel > 0
      requires onlyMove.Some? ==> IsLegal(game.board.pieceByLocation, game.currentPlayer, onlyMove.value)
      requires AllLegal(game.board.pieceByLocation, game.currentPlayer, t0.top)
      modifies this`timeExceeded, tt, game, game.board, game.board.squares
      ensures Valid() && game.Valid() && Restored(game)
      ensures onlyMove.None? ==> only == [] && t == t0
      ensures onlyMove.Some? ==>
                |only| == 1 && only[0].move == onlyMove.value
                && t == t0.(best := only[0].score, top := OnlyMoveTop(onlyMove.value), trust := only[0].minDepth)
      ensures AllLegal(game.board.pieceByLocation, game.currentPlayer, t.top)
      decreases fuel, 1
    {
      t, only := t0, [];
      if onlyMove.Some? {
        var move := onlyMove.value;
        var result := SearchChild(game, move, depth, t0.alpha, t0.beta, fuel);
        only := [Child(move, result.score, result.minDepth)];
        OnlyMoveTopLegal(game.board.pieceByLocation, game.currentPlayer, move);
        t := t0.(best := result.score, top := OnlyMoveTop(move), trust := result.minDepth);
      }
    }

    /** The inner node of searchBestMove: the moves searched (see
        NodeTally), one of the moves with the best score chosen at random,
        and the result recorded in the table: as searched to depth 0.5 when
        the window closed, else to the trust depth. The ghost tally t is the
        node's final bookkeeping and children the children searched. */
    method Expand(game: Game, entry: Entry, depth: int, alpha: Score, beta: Score, fuel: nat)
        returns (r: ScoredMove, ghost t: Tally<Move>, ghost children: seq<Child<Move>>)
      requires Valid() && game.Valid() && fuel > 0
      requires Searchable(game.board.pieceByLocation, game.currentPlayer, entry)
      modifies this`timeExceeded, tt, game, game.board, game.board.squares
      ensures Valid() && game.Valid() && Restored(game)
      ensures r.move.Some? ==> IsLegal(game.board.pieceByLocation, game.currentPlayer, r.move.value)
      ensures r.score == t.best && r.minDepth == t.trust
      ensures r.move.None? <==> t.top == []
      ensures r.move.Some? ==> r.move.value in t.top
      ensures BestOver(old(game.currentPlayer) == rootColor, children, r.score)
      ensures TopAttained(t.top, children, r.score)
      decreases fuel, 4
    {
      var tally;
      var isMax := game.currentPlayer == rootColor;
      tally, children := NodeTally(game, isMax, OnlyTarget(entry), Primary(entry), Secondary(entry), depth, alpha, beta, fuel);
      t := tally;
      var bestMove := PickBest(tally.top);
      SetTTDepthInfo(game, if Closed(tally) then 0.5 else tally.trust, tally.best, bestMove);
      r := ScoredMove(bestMove, tally.best, tally.trust);
    }

    /** The searches of an inner node: the only move (when the entry has
        one) at the node's depth, then the top list (or the legal list) one
        ply shallower, then the bottom list two plies shallower. */
    method NodeTally(game: Game, isMax: bool, onlyMove: Option<Move>, primary: seq<Move>, secondary: seq<Move>,
                     depth: int, alpha: Score, beta: Score, fuel: nat)
        returns (t: Tally<Move>, ghost children: seq<Child<Move>>)
      requires Valid() && game.Valid() && fuel > 0
      requires var pl, c := game.board.pieceByLocation, game.currentPlayer;
               (onlyMove.Some? ==> IsLegal(pl, c, onlyMove.value)) && AllLegal(pl, c, primary) && AllLegal(pl, c, secondary)
      modifies this`timeExceeded, tt, game, game.board, game.board.squares
      ensures Valid() && game.Valid() && Restored(game)
      ensures AllLegal(game.board.pieceByLocation, game.currentPlayer, t.top)
      ensures BestOver(isMax, children, t.best) && TopAttained(t.top, children, t.best)
      decreases fuel, 3
    {
      var t0 := Tally(if isMax then NegInf else PosInf, alpha, beta, [], depth as real);
      var t1;
      ghost var only;
      t1, only := SearchOnlyMove(game, onlyMove, depth, t0, fuel);
      t, children := SearchTiers(game, primary, secondary, isMax, t1, depth, fuel, t0, only);
    }

    /** The two tiers of an inner node, the primary one ply and the
        secondary two plies below the node, after the only move's search
        (only) took the tally from t0 to t1. The children are those of the
        node, the best score the node's. */
    method SearchTiers(game: Game, primary: seq<Move>, secondary: seq<Move>, isMax: bool, t1: Tally<Move>,
                       depth: int, fuel: nat, ghost t0: Tally<Move>, ghost only: seq<Child<Move>>)
        returns (t: Tally<Move>, ghost children: seq<Child<Move>>)
      requires Valid() && game.Valid() && fuel > 0
      requires var pl, c := game.board.pieceByLocation, game.currentPlayer;
               AllLegal(pl, c, primary) && AllLegal(pl, c, secondary) && AllLegal(pl, c, t1.top)
      requires t0.best == (if isMax then NegInf else PosInf) && |only| <= 1
      requires only == [] ==> t1 == t0
      requires t0.top == [] && (only != [] ==> t1.best == only[0].score && t1.top == [only[0].move])
      modifies this`timeExceeded, tt, game, game.board, game.board.squares
      ensures Valid() && game.Valid() && Restored(game)
      ensures AllLegal(game.board.pieceByLocation, game.currentPlayer, t.top)
      ensures BestOver(isMax, children, t.best) && TopAttained(t.top, children, t.best)
      decreases fuel, 2
    {
      var t2;
      ghost var trace1, trace2;
      t2, trace1 := SearchTier(game, primary, isMax, t1, depth - 1, 1, fuel);
      t, trace2 := SearchTier(game, secondary, isMax, t2, depth - 2, 2, fuel);
      children := only + trace1 + trace2;
      NodeBest(isMax, t0, t1, only, trace1, trace2);
      NodeTop(isMax, t0, t1, only, trace1, trace2);
    }

    /** The random choice among the moves with the best score, with the
        random index left unconstrained. */
    method PickBest(top: seq<Move>) returns (bestMove: Option<Move>)
      ensures bestMove.None? <==> top == []
      ensures bestMove.Some? ==> bestMove.value in top
    {
      if |top| == 0 {
        bestMove := None;
      } else if |top| == 1 {
        bestMove := Some(top[0]);
      } else {
        var i :| 0 <= i < |top|;
        bestMove := Some(top[i]);
      }
    }

    // ----------------------------------------------------- getNextMove

    /** getNextMove: iterative deepening from the starting depth up to
        MaxDepth on a game over the given board with color to move. Time
        never runs out in this model, so every search succeeds: the
        starting depth goes up by one (clamped) after a loop that went
        deeper, and a warm-up returns no move. */
    method GetNextMove(board: Board, color: Color, warmUp: bool) returns (move: Option<Move>)
      requires Valid() && board.Valid()
      modifies this`initialDepth, this`timeExceeded, this`rootColor, tt, board, board.squares
      ensures Valid() && board.Valid() && board.pieceByLocation == old(board.pieceByLocation)
      ensures rootColor == color
      ensures warmUp ==> move.None?
      ensures move.Some? ==> IsLegal(old(board.pieceByLocation), color, move.value)
      ensures initialDepth == NextInitialDepth(difficulty, old(initialDepth), warmUp, true, old(initialDepth) < MaxDepth)
    {
      var game := new Game(board, Some(color), keys);
      rootColor := color;
      timeExceeded := false;
      var currentDepth := initialDepth;
      var baseSucceeded, extraSucceeded := false, false;
      var bestMove := Search(game, currentDepth, NegInf, PosInf, SearchFuel);
      if !timeExceeded {
        baseSucceeded := true;
      }
      while currentDepth < MaxDepth && !timeExceeded
        invariant Valid() && game.Valid() && game.board == board
        invariant board.pieceByLocation == old(board.pieceByLocation) && game.currentPlayer == color
        invariant rootColor == color && initialDepth == old(initialDepth) && baseSucceeded
        invariant initialDepth <= currentDepth && extraSucceeded == (currentDepth > initialDepth)
        invariant currentDepth > initialDepth ==> currentDepth <= MaxDepth
        invariant bestMove.move.Some? ==> IsLegal(old(board.pieceByLocation), color, bestMove.move.value)
        decreases MaxDepth - currentDepth
      {
        var nextDepth := currentDepth + 1;
        var deeperBestMove := Search(game, nextDepth, NegInf, PosInf, SearchFuel);
        if !timeExceeded {
          extraSucceeded := true;
        }
        currentDepth := nextDepth;
        bestMove := deeperBestMove;
      }
      initialDepth := NextInitialDepth(difficulty, initialDepth, warmUp, baseSucceeded, extraSucceeded);
      move := if warmUp then None else bestMove.move;
    }
  }
}
