# Reverse chess engine, modelled in Dafny

This project models the engine of a reverse-chess game. In this variant a
player wins by losing material:
- captures are compulsory;
- a player may never leave its own king in check;
- the game ends by checkmate, stalemate, "lone island" (the side to move has
  only quiet king moves) or "only king left";
- the winner is fixed by the end condition.

The model follows the engine's own structure, one module per concern:

| module | file | models |
|---|---|---|
| `Types` | `types.dfy` | colours, pieces, files and ranks, keys, moves, scores (`src/engine/types.ts`) |
| `Geometry`, `GeometryFacts` | `geometry.dfy`, `geometry_facts.dfy` | square indices and the move and attack geometry of each piece, as pure functions, with their characterisations (`engine/board.ts`) |
| `Boards` | `board.dfy` | the board class: the 64 squares as an `array`, the placement as a map, and the insertion order of that map (`engine/board.ts`) |
| `BoardUtils` | `board_utils.dfy` | empty, cloned and half-turned boards (`src/engine/boardUtils.ts`) |
| `Zobrist` | `zobrist.dfy` | the xorshift generator, the key tables, the full and incremental position hashes (`src/lib/zobristHash.ts`) |
| `Rules` | `rules.dfy` | check, candidate moves, promotion, the capture rule and legality, as pure definitions |
| `Games` | `game.dfy` | the game class with its turn logic and its memo caches (`src/engine/game.ts`) |
| `EarlierGames` | `game_earlier.dfy` | the earlier revision of the game class (`engine/game.ts`) |
| `Transposition` | `transposition.dfy` | the size-bounded transposition table with insertion-order eviction (`src/engine/transpositionTable.ts`) |
| `Grouping`, `MoveOrder` | `grouping.dfy`, `move_order.dfy` | move ordering: forcing moves first, grouped by the size of the reply |
| `Minimax` | `minimax.dfy` | the alpha-beta tally over a node's children |
| `Evaluation` | `evaluation.dfy` | the material evaluation |
| `Search` | `search.dfy` | the computer player: iterative deepening and the memoised alpha-beta search (`src/engine/aiPlayer.ts`) |
| `Collections` | `collections.dfy` | sequence helpers |

The board and the game are classes whose methods update their fields in
place, as the source's do. The rules, the geometry and the hash are pure
functions. Each method is proved against them: a move generator returns
exactly the sequence the pure definition gives. The pure definitions are then
characterised by lemmas, for example "a move is generated if and only if it
is a safe candidate that obeys the capture rule".

The engine keys its legal-move, forced-capture and check caches, and the
search's transposition table, by the 32-bit Zobrist hash of the position. The
model keys them by the position itself: the placement together with the side
to move. It proves that the hash the engine stores is the hash of that
position, both when computed from scratch and when updated incrementally
after a move. Hash collisions are therefore not modelled.

The winner of a finished game is the player whose position meets the end
condition, that is the opponent of the player who just moved: the side left
with only kings, the checkmated side and the side on a lone island win, and
a stalemate has no winner (`src/engine/game.ts:172-205`). The engine's tests
say the same ("checkmated side wins" and "Stalemate (draw, winner = null)",
`src/engine/game.test.ts:55-99`), and so does the tutorial's rule text for
checkmate and for losing every piece but the king
(`src/assets/tutorialStep.ts:62`, `src/assets/tutorialStep.ts:108`).
The tutorial also calls being stalemated a win. The code and its test give a
stalemate no winner, and the model follows the code.
`Rules.WinnerFor` states the rule.

## Model

| member | source | states |
|---|---|---|
| Types.ReverseColor | src/engine/types.ts:8-10 | the opposite colour is a different colour |
| Types.ReverseColorInvolution | src/engine/types.ts:8-10 | reversing a colour twice gives it back |
| Types.FileToIndex | src/engine/types.ts:49-51 | a file's index lies in 0..7 |
| Types.IndexToFile | src/engine/types.ts:53-58 | a file exists exactly for the indices 0..7, and it has that index |
| Types.RankToIndex | src/engine/types.ts:60-62 | a rank's index lies in 0..7 |
| Types.IndexToRank | src/engine/types.ts:64-69 | a rank exists exactly for the indices 0..7; it is index + 1 and has that index |
| Types.FileIndexBijection | src/engine/types.ts:46-69 | index and file (and index and rank) convert to each other both ways, in the a..h and 1..8 order |
| Types.RankDigit | src/engine/types.ts:78-80 | a rank prints as the one digit '1'..'8' of its value |
| Types.LocationToKey | src/engine/types.ts:78-80 | a square's key is two characters: the file letter, then the rank digit |
| Types.LocationToKeyInjective | src/engine/types.ts:78-80 | different squares have different keys |
| Types.ColorName | src/engine/types.ts:1-4 | a colour's name is five letters long |
| Types.TypeName | src/engine/types.ts:12-19 | a piece type's name is at least four letters long |
| Types.TypeNameInjective | src/engine/types.ts:12-19 | different piece types have different names |
| Types.PieceToKey | src/engine/types.ts:96-98 | a piece key is the colour name, an underscore, then the type name |
| Types.PieceToKeyInjective | src/engine/types.ts:96-98 | different pieces have different piece keys |
| Types.ScoreOrderTotal | src/engine/types.ts:142 | the order on scores, with minus and plus infinity at the ends, is a strict total order |
| Geometry.FileIndex | engine/board.ts:125-133 | a square's file index lies in 0..7 |
| Geometry.RankIndex | engine/board.ts:125-133 | a square's rank index lies in 0..7 |
| Geometry.CreateLocation | engine/board.ts:135-142 | a square exists exactly for in-range indices, and it has those indices |
| Geometry.LocationByIndices | engine/board.ts:125-142 | a square is determined by its two indices |
| Geometry.CreateLocationOfIndices | engine/board.ts:125-142 | building a square from its own indices gives it back |
| Geometry.SquareIndex | engine/board.ts:144-150 | the row-major square index lies in 0..63 |
| Geometry.SquareIndexInjective | engine/board.ts:144-150 | different squares have different square indices |
| Geometry.LocationOfIndex | engine/board.ts:39-55 | every index 0..63 is the square index of some square |
| Geometry.LocationOfSquareIndex | engine/board.ts:39-55 | the square at a square's index is that square |
| GeometryFacts.RayMembership | engine/board.ts:183-220 | a ray reaches a square iff it lies on the line, is not occupied by the mover's own piece, and every square before it is empty |
| GeometryFacts.JumpMembership | engine/board.ts:264-283 | a jump reaches a square iff its offset is one of the listed offsets and it is not occupied by an own piece |
| GeometryFacts.PawnCapturesMembership | engine/board.ts:254-260 | a diagonal pawn move reaches a square iff an opponent stands on it one rank ahead, one file aside |
| GeometryFacts.PawnMovesCharacterised | engine/board.ts:235-262 | the pawn's moves are exactly: the diagonal captures, one step forward onto an empty square, and two steps from the start rank with both squares empty |
| GeometryFacts.PawnRules | engine/board.ts:235-262 | a pawn's double step starts on rank 2 (White) or 7 (Black) over an empty square; a change of file is always a capture |
| GeometryFacts.BishopAttackGeometry | engine/board.ts:442-459 | a bishop attacks a square iff it lies on a diagonal with every square between them empty |
| GeometryFacts.RookAttackGeometry | engine/board.ts:460-477 | a rook attacks a square iff it shares a file or a rank with it and every square between them is empty |
| GeometryFacts.KnightOffsetsGeometry | engine/board.ts:264-283 | the knight's offsets are exactly the (1,2) and (2,1) steps in every sign |
| GeometryFacts.KingOffsetsGeometry | engine/board.ts:316-335 | the king's offsets are exactly the squares at Chebyshev distance 1 |
| GeometryFacts.BishopMovesOn | engine/board.ts:285-293 | the bishop's moves are exactly the squares it attacks that hold no own piece |
| GeometryFacts.RookMovesOn | engine/board.ts:294-302 | the rook's moves are exactly the squares it attacks that hold no own piece |
| GeometryFacts.QueenSlides | engine/board.ts:303-315 | the queen's slides are exactly the rook's slides together with the bishop's |
| GeometryFacts.QueenMoves | engine/board.ts:303-315 | the queen's moves are exactly the squares it attacks that hold no own piece |
| GeometryFacts.MovesAreUnblockedAttacks | engine/board.ts:222-342 | for every piece but the pawn, a square is a move iff it is another square, holds no own piece, and the piece attacks it |
| GeometryFacts.MovesAvoidOwnPieces | engine/board.ts:222-342 | no move lands on the piece's own square or on a square held by an own piece |
| Boards.Lookup | engine/board.ts:152-156 | the piece on a square is present iff the square is in the placement, and it is the placed piece |
| Boards.Placed | engine/board.ts:355-383 | setting a square changes that square to the new content and no other |
| Boards.InitialSquare | engine/board.ts:39-55 | square i of the initial array is the square with square index i |
| Boards.InitialSquaresMatch | engine/board.ts:39-55 | the initial array of squares agrees with the empty placement |
| Boards.SquaresMatchUpdate | engine/board.ts:355-383 | writing a square in the array and in the placement keeps the two in agreement |
| Boards.PiecesOf | engine/board.ts:163-167 | the pieces listed for a colour are exactly the listed squares holding a piece of that colour, without repetition |
| Boards.CapturesAmongMembership | engine/board.ts:403-415 | a piece is capturable iff it is of the other colour and stands on one of the move targets |
| Boards.Board.constructor | engine/board.ts:33-37 | a new board holds the 32 pieces of the initial position, keyed in the order they were set |
| Boards.Board.InitPieces | engine/board.ts:57-113 | setting up file by file yields exactly the initial position, in the order a1, a8, a2, a7, b1, … |
| Boards.Board.GetAllPieces | engine/board.ts:163-167 | the pieces returned are exactly the board's pieces of the requested colour (all when none), each once |
| Boards.Board.SetPiece | engine/board.ts:355-383 | only the given square changes; a placed square's key moves to the end of the key order and a cleared one's is dropped |
| Boards.Board.MovePiece | engine/board.ts:385-397 | the destination's old piece is returned as captured, the origin is emptied and the mover stands on the destination; nothing changes when the origin is empty |
| Boards.Board.ChangePieceType | engine/board.ts:399-401 | the piece on the square keeps its colour and takes the new type; nothing else changes |
| Boards.Board.JumpMoves | engine/board.ts:264-283 | the knight and king loop returns exactly the jump targets in offset order |
| Boards.Board.GenerateSlidingMoves | engine/board.ts:183-220 | the sliding loop returns exactly the rays in direction order |
| Boards.Board.WalkRay | engine/board.ts:194-216 | one direction's walk returns exactly that ray |
| Boards.Board.GetMovableLocations | engine/board.ts:222-342 | the move list is the piece's geometric move list, or empty for an empty square |
| Boards.Board.PawnMoveList | engine/board.ts:235-262 | the pawn branch returns exactly the pawn's moves |
| Boards.Board.GetCapturablePieces | engine/board.ts:403-415 | the result lists, in move order, the opponent pieces standing on the move targets |
| Boards.Board.WalkIsClear | engine/board.ts:442-477 | the path-walking loop answers exactly whether every square before the target is empty |
| Boards.Board.CanPieceAttackLocation | engine/board.ts:417-493 | the answer is the attack predicate of the piece |
| Boards.Board.IsLocationAttacked | engine/board.ts:495-506 | the answer is whether some piece of the given colour attacks the square |
| BoardUtils.Rotated | src/engine/boardUtils.ts:52-59 | the opposite square has both indices mirrored (7 − index) |
| BoardUtils.RotatedInvolution | src/engine/boardUtils.ts:42-71 | mirroring a square twice gives it back |
| BoardUtils.RotatedAll | src/engine/boardUtils.ts:48-69 | the rotated key order has the same length, each key mirrored in place |
| BoardUtils.SamePlacement | src/engine/boardUtils.ts:21-40 | placements that agree on every square are equal |
| BoardUtils.NothingPlaced | src/engine/boardUtils.ts:5-19 | a board with every square cleared has an empty placement and an empty key order |
| BoardUtils.RotateTwiceRestores | src/engine/boardUtils.ts:42-71 | rotating a placement twice gives it back |
| BoardUtils.RotateAllTwice | src/engine/boardUtils.ts:42-71 | rotating a key order twice gives it back |
| BoardUtils.ClearFile | src/engine/boardUtils.ts:11-16 | after one file is cleared, every square of that file and of the files before it is empty |
| BoardUtils.CreateEmptyBoard | src/engine/boardUtils.ts:5-19 | a fresh board with no pieces and an empty key order |
| BoardUtils.CloneStep | src/engine/boardUtils.ts:25-37 | copying one more piece extends the copy by exactly that piece, its key last |
| BoardUtils.CloneBoard | src/engine/boardUtils.ts:21-40 | a fresh board with the same pieces, in the same key order, as the source |
| BoardUtils.RotateStep | src/engine/boardUtils.ts:48-69 | placing one more piece on its opposite square extends the rotation by exactly that piece |
| BoardUtils.RotateBoard180 | src/engine/boardUtils.ts:42-71 | a fresh board holding on each square what the source holds on the opposite one, keys mirrored in order, with as many pieces as the source |
| BoardUtils.RotateTwiceIsClone | src/engine/boardUtils.ts:21-71 | two half-turns give the clone: the same pieces and the same key order |
| Zobrist.XorShiftInjective | src/lib/zobristHash.ts:18-26 | the xorshift step is injective and maps only zero to zero |
| Zobrist.Random32.constructor | src/lib/zobristHash.ts:18-19 | the generator's state starts at the seed |
| Zobrist.Random32.Next | src/lib/zobristHash.ts:20-25 | each draw advances the state by one xorshift step and returns the new state |
| Zobrist.CreatePieceTable | src/lib/zobristHash.ts:37-47 | a 12 × 64 table whose entry (i, j) is draw 64·i + j + 1 from the seed; 768 draws are made |
| Zobrist.CreateZobristKeys | src/lib/zobristHash.ts:28-35 | the key table and the side key are the draws from the seed, in that order |
| Zobrist.PieceKindIndex | src/lib/zobristHash.ts:49-75 | a piece kind's index lies in 0..11 |
| Zobrist.PieceKindIndexBijection | src/lib/zobristHash.ts:49-75 | piece kinds and the indices 0..11 correspond one to one |
| Zobrist.PlacementHashOrderIndependent | src/lib/zobristHash.ts:86-97 | the placement hash does not depend on the order the pieces are visited in |
| Zobrist.PositionHashOrderIndependent | src/lib/zobristHash.ts:86-104 | neither does the position hash |
| Zobrist.PositionHashSides | src/lib/zobristHash.ts:99-104 | the hash with Black to move is the hash with White to move, toggled |
| Zobrist.ToggleInvolution | src/lib/zobristHash.ts:153-155 | toggling the side to move twice gives the hash back |
| Zobrist.PositionHashOtherSide | src/lib/zobristHash.ts:153-155 | toggling a position's hash gives the hash with the other side to move |
| Zobrist.ComputeZobristHash | src/lib/zobristHash.ts:86-104 | the computed hash is the position hash of the board with the given side to move |
| Zobrist.HashPieces | src/lib/zobristHash.ts:86-97 | the loop computes the placement hash of the board |
| Zobrist.UpdateHashRoundTrip | src/lib/zobristHash.ts:116-151 | undoing an incremental update restores the hash, and so does redoing an undo |
| Zobrist.UpdateHashForMoveCorrect | src/lib/zobristHash.ts:116-151 | the incrementally updated hash equals the hash recomputed from the position after the move |
| Rules.CheckersMembership | src/engine/game.ts:330-356 | the checkers are exactly the opponent pieces that attack a king of the colour; there are some iff that colour is in check |
| Rules.CheckersWithoutKing | src/engine/game.ts:330-356 | a colour without a king is never in check |
| Rules.MakeMove | src/engine/game.ts:399-418 | a move is built iff a piece stands on the origin and the promotion is not to a king; it records the piece and the captured piece |
| Rules.SplitMembership | src/engine/game.ts:286-321 | the captures and quiet moves are exactly the moves with and without a captured piece |
| Rules.PromotionsOfMembership | src/engine/game.ts:271-284 | a pawn reaching the last rank yields exactly its four promotions, other moves themselves |
| Rules.FlatPromoteMembership | src/engine/game.ts:271-284 | the promoted list holds exactly the promotion-fitting variants of the listed moves |
| Rules.RollbackRestores | src/engine/game.ts:420-456 | rolling back an applied move restores the placement |
| Rules.LegalMoveDetermined | src/engine/game.ts:399-418 | a legal move is determined by its origin, destination and promotion |
| Rules.CandidatesMembership | src/engine/game.ts:286-321 | a candidate is exactly a move of an own piece to one of its movable squares |
| Rules.SafeMovesMembership | src/engine/game.ts:323-328 | the kept moves are exactly those after which the mover is not in check |
| Rules.PromotedMembership | src/engine/game.ts:286-321 | the promoted captures and quiets are exactly the capturing and quiet candidates |
| Rules.GeneratedMembership | src/engine/game.ts:286-321 | the generated captures are exactly the safe capturing candidates, and there are some iff a capture is forced |
| Rules.LegalMovesMembership | src/engine/game.ts:222-239 | the legal moves are exactly the safe candidates that obey the capture rule; there are none iff the colour has no legal move |
| Rules.LegalMovesEmpty | src/engine/game.ts:222-239 | the legal list is empty iff the colour has no legal move |
| Rules.LoneIslandLegal | src/engine/game.ts:376-391 | lone island holds iff the colour is not in check, has legal moves, and all of them are quiet king moves |
| Rules.KingMovesKeepAll | src/engine/game.ts:376-391 | the king filter keeps exactly the king moves, and keeps all iff all are king moves |
| Rules.LoneIslandCount | src/engine/game.ts:376-391 | counting the quiet king moves gives the whole list iff every move is a quiet king move |
| Rules.NonKingsMembership | src/engine/game.ts:393-397 | the non-king filter keeps exactly the pieces that are not kings |
| Rules.NonKingsNone | src/engine/game.ts:393-397 | no non-king is left iff every listed piece is a king |
| Games.KingLocations | src/engine/game.ts:335-339 | the squares returned are exactly those holding a king of the colour |
| Games.AttacksAnyKing | src/engine/game.ts:344-350 | the answer is whether the piece attacks one of the listed kings |
| Games.CheckForCheckByBoard | src/engine/game.ts:330-356 | the result is the in-check flag and the list of checkers of the colour |
| Games.ApplyMoveToBoard | src/engine/game.ts:420-437 | the board changes to the placement after the move; the move returned records the captured piece |
| Games.RollbackMoveOnBoard | src/engine/game.ts:439-456 | the board changes to the rolled-back placement |
| Games.CollectFrom | src/engine/game.ts:294-303 | one piece's moves are appended to the captures or the quiet moves |
| Games.CollectCandidates | src/engine/game.ts:286-304 | the captures and quiet moves of every own piece, split |
| Games.MatchesSquares | src/engine/game.ts:148-156 | a move matches a request iff origin, destination and promotion agree |
| Games.FindMove | src/engine/game.ts:150-160 | the first matching move is found, or none when no move matches |
| Games.NewBoard | src/engine/game.ts:67-82 | a fresh board in the initial position |
| Games.LegalCacheStore | src/engine/game.ts:222-239 | storing the legal moves of a position keeps the legal cache sound |
| Games.ForcedCacheStore | src/engine/game.ts:241-255 | storing the forced-capture flag of a position keeps that cache sound |
| Games.CheckCacheStore | src/engine/game.ts:257-269 | storing the check result of a position keeps the check cache sound |
| Games.Game.constructor | src/engine/game.ts:67-82 | the given board or a new one in the initial position, the given player or Black, not started, empty history and caches |
| Games.Game.HashKey | src/engine/game.ts:222-224 | the key is the position hash of the board with the given side to move |
| Games.Game.StartGame | src/engine/game.ts:104-110 | only a game that has not started can start; otherwise the error is GameAlreadyStarted and the state is unchanged |
| Games.Game.SwitchPlayer | src/engine/game.ts:210-214 | the other player is to move and the turn count grows by one |
| Games.Game.FinishGame | src/engine/game.ts:216-220 | the game is finished with the given winner and reason |
| Games.Game.ApplyMove | src/engine/game.ts:420-437 | the board holds the placement after the move and the hash follows it |
| Games.Game.RollbackMove | src/engine/game.ts:439-456 | the board holds the rolled-back placement and the hash follows it |
| Games.Game.CheckForNextCheck | src/engine/game.ts:323-328 | the answer is whether the colour is in check after the move; the board is left as it was |
| Games.Game.FilterNotInCheck | src/engine/game.ts:286-321 | the kept moves are the safe ones, in order |
| Games.Game.GenerateCandidateMoves | src/engine/game.ts:286-321 | the results are the generated captures and quiet moves of the colour |
| Games.Game.GetLegalMoves | src/engine/game.ts:222-239 | the legal moves of the colour, served from or put into the cache |
| Games.Game.StoreLegalMoves | src/engine/game.ts:231-238 | both caches gain the entry for the position and stay sound |
| Games.Game.StoreLegal | src/engine/game.ts:231-238 | the legal cache gains the entry for the position and stays sound |
| Games.Game.StoreForced | src/engine/game.ts:246-254 | the forced-capture cache gains the entry for the position and stays sound |
| Games.Game.IsCaptureForced | src/engine/game.ts:241-255 | the answer is whether the player to move is forced to capture |
| Games.Game.CheckForCheck | src/engine/game.ts:257-269 | the in-check flag and exactly the checking pieces |
| Games.Game.StoreCheck | src/engine/game.ts:257-269 | the check cache gains the entry for the position and stays sound |
| Games.Game.CheckForCheckmate | src/engine/game.ts:358-368 | checkmate iff in check with no legal move; the checkers are returned |
| Games.Game.IsStalemate | src/engine/game.ts:370-374 | stalemate iff not in check with no legal move |
| Games.Game.IsLoneIsland | src/engine/game.ts:376-391 | the answer is the lone-island condition |
| Games.IsOnlyKingLeft | src/engine/game.ts:393-397 | the answer is whether the colour has nothing but kings; the earlier revision's isOnlyKingLeft (`engine/game.ts:245-249`) is the same code and uses it too |
| Games.Game.DetectEnd | src/engine/game.ts:172-205 | the end reason is the first that holds, in the order OnlyKingLeft, Checkmate, Stalemate, LoneIsland |
| Games.Game.ProgressTurn | src/engine/game.ts:112-208 | errors in the order NotYourTurn, GameNotStarted, GameFinished, InvalidMove, with nothing changed; a request that matches a legal move of the player to move in a game in play succeeds, and only such a request does; on success the requested legal move is played, recorded and the turn passes, and the game ends exactly when an end condition holds for the next player |
| Games.Game.FindLegalMove | src/engine/game.ts:148-160 | the legal move matching the request, or none when there is none |
| Games.Game.PlayMove | src/engine/game.ts:162-205 | the move is applied and recorded, the player switches, and the end is decided for the next player |
| Games.Game.EndTurn | src/engine/game.ts:172-205 | the end tests for the given colour, and the game finishes when one holds |
| Games.Game.ApplyMoveForSearch | src/engine/game.ts:458-465 | the move is applied, recorded and the player switched |
| Games.Game.RollbackMoveForSearch | src/engine/game.ts:467-474 | the last recorded move is undone and removed, and the player switched back; nothing changes with an empty history |
| EarlierGames.EarlierEndCases | engine/game.ts:151-180 | all end tests run, and the last that holds decides: OnlyKingLeft over LoneIsland over Stalemate over Checkmate |
| EarlierGames.EarlierCandidatesMembership | engine/game.ts:65-87 | the candidates are the captures when any capture exists, otherwise the quiet moves |
| EarlierGames.EarlierLegalMembership | engine/game.ts:185-199 | a legal move is a candidate that leaves no check; there are none iff the colour has no legal move |
| EarlierGames.UnsafeCapturesBlockQuietMoves | engine/game.ts:65-87 | when every capture is unsafe, the earlier rules leave no legal move although a safe quiet move exists that the current rules allow |
| EarlierGames.FindMoveBySquares | engine/game.ts:135-144 | a move with the requested origin and destination, or none; the promotion is not compared |
| EarlierGames.EarlierGame.constructor | engine/game.ts:48-58 | the given or a new initial board, Black to move, not started, empty history and caches |
| EarlierGames.EarlierGame.SwitchPlayer | engine/game.ts:60-63 | the other player is to move, the turn count grows, and no cache entry exists yet for the new turn |
| EarlierGames.EarlierGame.StartGame | engine/game.ts:89-95 | only a game that has not started can start; otherwise GameAlreadyStarted |
| EarlierGames.EarlierGame.FinishGame | engine/game.ts:105-109 | the game is finished with the given winner and reason |
| EarlierGames.EarlierGame.FinishIf | engine/game.ts:151-180 | one end test: the game finishes when its condition holds and is unchanged otherwise |
| EarlierGames.EarlierGame.CheckForNextCheck | engine/game.ts:301-306 | the answer is whether the colour is in check after the move |
| EarlierGames.EarlierGame.FilterNotInCheck | engine/game.ts:185-199 | the kept moves are the safe ones, in order |
| EarlierGames.EarlierGame.GenerateCandidateMoves | engine/game.ts:65-87 | the captures if any, otherwise the quiet moves |
| EarlierGames.EarlierGame.GetLegalMoves | engine/game.ts:185-199 | the legal moves under the earlier rules |
| EarlierGames.EarlierGame.CheckForCheck | engine/game.ts:201-212 | the in-check flag and the checkers |
| EarlierGames.EarlierGame.CheckForCheckmate | engine/game.ts:214-224 | checkmate iff in check with no legal move under the earlier rules |
| EarlierGames.EarlierGame.IsStalemate | engine/game.ts:226-230 | stalemate iff not in check with no legal move under the earlier rules |
| EarlierGames.EarlierGame.IsLoneIsland | engine/game.ts:232-243 | lone island iff every legal move is a quiet king move; check is not consulted |
| EarlierGames.EarlierGame.Advance | engine/game.ts:146-149 | the move is applied and recorded, and the player switched |
| EarlierGames.EarlierGame.EndTests | engine/game.ts:151-180 | the end is the earlier end reason for the colour, with its winner |
| EarlierGames.EarlierGame.ProgressTurn | engine/game.ts:111-183 | only NotYourTurn and InvalidMove are reported; the game state is not consulted; a request whose squares match a legal move of the player to move succeeds, and only such a request does; on success the matching legal move is played |
| EarlierGames.EarlierGame.FindLegalMove | engine/game.ts:135-144 | the legal move with the requested squares, or none |
| EarlierGames.EarlierGame.PlayMove | engine/game.ts:146-180 | the move is played and the end is decided for the opponent |
| Transposition.KeysOf | src/engine/transpositionTable.ts:31 | the keys of the table, in insertion order |
| Transposition.Window | src/engine/transpositionTable.ts:53-61 | the new entry has the given depth, score and best move and keeps every other field |
| Transposition.GetMembership | src/engine/transpositionTable.ts:39-41 | an entry is found iff its key is stored, and it is the stored entry |
| Transposition.GetPut | src/engine/transpositionTable.ts:50 | after a put, the key finds the new entry and every other key what it found before |
| Transposition.KeysPut | src/engine/transpositionTable.ts:50 | a put keeps a present key in its place and appends a new one |
| Transposition.PutPairs | src/engine/transpositionTable.ts:50 | a put adds no entry but the new one |
| Transposition.StoredGet | src/engine/transpositionTable.ts:43-51 | after setEntry the key finds the entry just set |
| Transposition.StoredKeys | src/engine/transpositionTable.ts:43-51 | a new key at capacity evicts the earliest-inserted key and goes last |
| Transposition.StoredOthers | src/engine/transpositionTable.ts:43-51 | every other key keeps its entry, except the evicted one |
| Transposition.StoredBound | src/engine/transpositionTable.ts:43-51 | the table never holds more than maxSize keys, each once |
| Transposition.StoredPairs | src/engine/transpositionTable.ts:43-51 | setEntry adds no entry but the new one |
| Transposition.TranspositionTable.constructor | src/engine/transpositionTable.ts:34-37 | an empty table with the given capacity |
| Transposition.TranspositionTable.GetEntry | src/engine/transpositionTable.ts:39-41 | an entry is found iff its key is stored, and it is the stored one |
| Transposition.TranspositionTable.SetEntry | src/engine/transpositionTable.ts:43-51 | the table becomes the stored table, with eviction at capacity |
| Transposition.TranspositionTable.UpdateSearchWindow | src/engine/transpositionTable.ts:53-61 | the previous entry (or an empty one) with the new depth, score and best move is stored |
| Transposition.TranspositionTable.Clear | src/engine/transpositionTable.ts:63-65 | the table becomes empty |
| Grouping.PickedRestPermutation | src/engine/aiPlayer.ts:374-398 | the forcing moves and the rest together are a permutation of the moves |
| Grouping.DistinctCounts | src/engine/aiPlayer.ts:400-402 | the distinct reply counts, each once |
| Grouping.Insert | src/engine/aiPlayer.ts:400-402 | inserting a count adds exactly that count |
| Grouping.SortAscending | src/engine/aiPlayer.ts:400-402 | sorting the counts keeps the same counts |
| Grouping.SortAscendingSorted | src/engine/aiPlayer.ts:400-402 | the sorted counts are ascending, and distinct when the input is |
| Grouping.GroupedPermutation | src/engine/aiPlayer.ts:400-408 | grouping by count is a permutation of the forcing moves |
| Grouping.GroupedAscending | src/engine/aiPlayer.ts:400-408 | grouped by ascending count, the counts never decrease |
| Grouping.TopOrderSorted | src/engine/aiPlayer.ts:400-408 | the top moves are the forcing moves ordered by non-decreasing reply count |
| Grouping.FlagsFitStep | src/engine/aiPlayer.ts:374-398 | classifying one more move extends the forcing list or the rest by that move |
| Grouping.OrderPermutation | src/engine/aiPlayer.ts:374-408 | top and bottom together are a permutation of the moves |
| Grouping.OrderBottom | src/engine/aiPlayer.ts:374-398 | every bottom move is a move that failed the test |
| Grouping.OrderTop | src/engine/aiPlayer.ts:374-408 | every top move is a move that passed the test |
| Grouping.OrderCounts | src/engine/aiPlayer.ts:400-408 | the top moves carry their reply counts in non-decreasing order |
| MoveOrder.LegalListMembership | src/engine/aiPlayer.ts:357-368 | a legal list holds every legal move and only legal ones; it is empty iff there is no legal move |
| MoveOrder.OrderedPermutation | src/engine/aiPlayer.ts:374-408 | the ordered top and bottom are a permutation of the legal moves |
| MoveOrder.OrderedBottom | src/engine/aiPlayer.ts:374-398 | no bottom move gives check or forces a capture |
| MoveOrder.OrderedTop | src/engine/aiPlayer.ts:374-398 | every top move gives check or forces a capture |
| MoveOrder.OrderedCounts | src/engine/aiPlayer.ts:400-408 | the top moves are ordered by the opponent's number of replies, fewest first |
| MoveOrder.OrderedLegal | src/engine/aiPlayer.ts:374-408 | the top and bottom moves are legal |
| Minimax.Trust | src/engine/aiPlayer.ts:243-274 | the trusted depth never exceeds either bound, and stays when it is within the child's |
| Minimax.ScanAppend | src/engine/aiPlayer.ts:232-292 | scanning one more child is one more step |
| Minimax.TierAppend | src/engine/aiPlayer.ts:232-261 | a tier that has not closed the window goes on to the next move |
| Minimax.StepBest | src/engine/aiPlayer.ts:244-260 | one step keeps the best at least as good as before and as the child, and equal to one of them |
| Minimax.ScanBest | src/engine/aiPlayer.ts:232-292 | after a scan no child scores better than the best |
| Minimax.ScanAttained | src/engine/aiPlayer.ts:232-292 | the best after a scan is the starting best or the score of a child |
| Minimax.ScanTop | src/engine/aiPlayer.ts:232-292 | every top move is a child that attained the best, or was top before with the best unchanged |
| Minimax.ScanWindow | src/engine/aiPlayer.ts:232-292 | a maximising node only raises alpha to its best, a minimising node only lowers beta |
| Minimax.ScanTrust | src/engine/aiPlayer.ts:232-292 | the trusted depth never exceeds any child's |
| Minimax.NodeBest | src/engine/aiPlayer.ts:205-292 | the node's best is at least as good as every child searched, over the only move and both tiers |
| Minimax.NodeTop | src/engine/aiPlayer.ts:205-292 | every move in the node's top list is a searched child that attained the best |
| Minimax.TerminalScore | src/engine/aiPlayer.ts:183-194 | a finished game scores plus infinity when the root player wins, minus infinity when it loses, zero otherwise |
| Minimax.TerminalScoreSymmetric | src/engine/aiPlayer.ts:183-194 | the terminal score of the other root player is the negation |
| Minimax.NegateReverses | src/engine/aiPlayer.ts:183-194 | negation reverses the order of scores and is an involution |
| Evaluation.PieceValue | src/engine/aiPlayer.ts:426-463 | a piece is worth nothing iff it is a king, and at most 9 |
| Evaluation.MaterialBounds | src/engine/aiPlayer.ts:426-463 | material is never negative, and zero for a colour with only kings |
| Evaluation.MaterialOrderIndependent | src/engine/aiPlayer.ts:426-463 | material does not depend on the order the pieces are listed in |
| Evaluation.Material | src/engine/aiPlayer.ts:426-463 | the loop sums the values of the colour's pieces |
| Evaluation.ScoreAntisymmetric | src/engine/aiPlayer.ts:426-463 | the two players' evaluations are each other's negation |
| Search.ClampDepth | src/engine/aiPlayer.ts:103-112 | the depth is clamped into the level's limits, unchanged inside them |
| Search.ClampDepthFacts | src/engine/aiPlayer.ts:103-112 | clamping is idempotent and monotone |
| Search.NextInitialDepth | src/engine/aiPlayer.ts:154-158 | after a real search the starting depth grows by one when a deeper search finished and otherwise stays, within the limits; a warm-up leaves it |
| Search.EndReasonAgrees | src/engine/aiPlayer.ts:336-352 | the search's end test ends exactly when the game's does, with no winner only for stalemate |
| Search.SoundSearchable | src/engine/aiPlayer.ts:322-414 | a sound table entry can be searched |
| Search.EndedSearchable | src/engine/aiPlayer.ts:336-352 | the entry for a finished position can be searched |
| Search.GetSound | src/engine/transpositionTable.ts:39-41 | every entry read from a sound table is sound |
| Search.StoredSound | src/engine/transpositionTable.ts:43-51 | storing a sound entry keeps the table sound |
| Search.WindowSound | src/engine/aiPlayer.ts:416-424 | updating the window with a legal best move keeps an entry sound |
| Search.ChildEntrySound | src/engine/aiPlayer.ts:357-368 | recording a legal list keeps an entry sound |
| Search.OrderedEntrySound | src/engine/aiPlayer.ts:400-413 | the ordered entry of a position still in play is sound |
| Search.LegalMoveColor | src/engine/aiPlayer.ts:217-230 | a legal move moves a piece of the player to move |
| Search.OnlyMoveTopAsWrittenWrong | src/engine/aiPlayer.ts:217-230 | as written, the top list holds the child's reply, which is not a legal move of the node, and can remain the node's answer |
| Search.OnlyMoveTopLegal | src/engine/aiPlayer.ts:217-230 | with the only move itself pushed, the top list holds only legal moves |
| Search.StepTop | src/engine/aiPlayer.ts:244-260 | a step's top list holds only the previous top moves and the child's move |
| Search.AIPlayer.constructor | src/engine/aiPlayer.ts:57-70 | an empty table, the level's time limit and the clamped starting depth, White as the root player |
| Search.AIPlayer.Interrupt | src/engine/aiPlayer.ts:73-75 | the interrupted flag is set |
| Search.AIPlayer.IsTimeUp | src/engine/aiPlayer.ts:80-101 | the clock never runs out in the model |
| Search.AIPlayer.Evaluate | src/engine/aiPlayer.ts:426-463 | the score is the opponent's material minus the root player's |
| Search.AIPlayer.SetTTDepthInfo | src/engine/aiPlayer.ts:416-424 | a stored depth at least as deep is kept; otherwise the window is updated |
| Search.AIPlayer.ChildLegalMoves | src/engine/aiPlayer.ts:374-398 | the legal moves of the position, with the game left as it was |
| Search.AIPlayer.ChildInfo | src/engine/aiPlayer.ts:374-398 | whether the mover is in check or must capture, and the number of its legal moves |
| Search.AIPlayer.ReplyInfo | src/engine/aiPlayer.ts:374-398 | whether a move is forcing, and the opponent's number of replies to it |
| Search.AIPlayer.ClassifyMoves | src/engine/aiPlayer.ts:374-398 | the moves are split into the forcing ones with their counts and the rest |
| Search.AIPlayer.GroupTop | src/engine/aiPlayer.ts:400-408 | the forcing moves grouped by ascending reply count |
| Search.AIPlayer.EndChecks | src/engine/aiPlayer.ts:336-352 | the end reason and winner of the position |
| Search.AIPlayer.OrderPosition | src/engine/aiPlayer.ts:357-408 | the legal moves, cached or generated, with their ordering into top and bottom |
| Search.AIPlayer.GetTTEntry | src/engine/aiPlayer.ts:322-414 | a complete entry is returned as is; a finished position gets its end entry; otherwise a freshly ordered entry is stored and returned |
| Search.AIPlayer.StoreOrdered | src/engine/aiPlayer.ts:400-413 | the ordered entry is stored under the position |
| Search.AIPlayer.Search | src/engine/aiPlayer.ts:166-320 | a deep enough hit returns the stored result; a finished position its terminal score; depth 0 the evaluation; any move returned is legal |
| Search.AIPlayer.Decide | src/engine/aiPlayer.ts:175-203 | the hit, ended and leaf cases of the search |
| Search.AIPlayer.Leaf | src/engine/aiPlayer.ts:196-203 | the evaluation with the entry's best move |
| Search.AIPlayer.SearchChild | src/engine/aiPlayer.ts:219-226 | a child search leaves the game as it was |
| Search.AIPlayer.TierStep | src/engine/aiPlayer.ts:232-261 | one child of a tier is one step of the tally, and the top list stays legal |
| Search.AIPlayer.SearchTier | src/engine/aiPlayer.ts:232-292 | a tier is a scan of its moves, stopping only when the window closes |
| Search.AIPlayer.SearchOnlyMove | src/engine/aiPlayer.ts:217-230 | the only move, when there is one, becomes the best with that move alone on top |
| Search.AIPlayer.Expand | src/engine/aiPlayer.ts:205-320 | the move returned is a legal top move that attained the best score, which is at least as good as every child searched |
| Search.AIPlayer.NodeTally | src/engine/aiPlayer.ts:205-292 | the tally's best bounds every child and its top moves attained it |
| Search.AIPlayer.SearchTiers | src/engine/aiPlayer.ts:232-292 | the primary tier then the secondary one, with the same guarantees |
| Search.AIPlayer.PickBest | src/engine/aiPlayer.ts:304-312 | a move is chosen from the top moves, none only when there are none |
| Search.AIPlayer.GetNextMove | src/engine/aiPlayer.ts:114-163 | the board is left as it was; the move is legal for the colour; a warm-up returns none; the starting depth is adjusted |

## Left out

- Hash collisions: the caches and the transposition table are keyed by the position rather than its 32-bit hash. Two positions with the same hash, which would share an entry in the engine, have separate entries in the model.
- The Zobrist tables are a constructor parameter of the game and the player rather than module-level globals. `Zobrist.CreateZobristKeys` states how they are drawn.
- A piece's back-reference to its location (`piece.location`) and object identity: pieces are values.
  - The `!piece.location` skip in `cloneBoard` and the `indexOf` = −1 skip in `rotateBoard180` are never taken on a valid board, so they are not modelled.
- The piece buckets (`initPieceBuckets`, `removeFromBuckets`, `getAllPiecesByPieceKey`) are not kept. Their one use in the modelled operations is the king lookup of `checkForCheckByBoard` (`src/engine/game.ts:335`, `engine/game.ts:313`); `Games.KingLocations` scans the colour's pieces in the placement instead. The two agree because a king never changes type and no piece is promoted to a king, so `setPiece` keeps the king bucket equal to the kings on the board (only the order may differ, and check asks only whether some king is attacked).
- The getters of the game (`getBoard`, `getCurrentPlayer`, `getWinner`, `getBoardHash`, `getEndReason`) and `ttHitCount`: they only read fields.
- Clocks and concurrency: `Date.now` deadlines, the interrupted flag's effect, `yieldToEventLoop` and the async control flow. `console.log` output. The worker and the user interface.
- Search.AIPlayer.IsTimeUp: `isTimeUp` builds a fresh counter on every call, so the count reaches 1 of `BATCH_SIZE` and neither the clock nor the interrupted flag is consulted (`src/engine/aiPlayer.ts:78-101`); the model returns false outright. Consequently `timeExceeded` stays false, and the timed-out adjustments of the trust depth (0.5 added, then 0.1 subtracted, `src/engine/aiPlayer.ts:294-303`) are unreachable.
- Search.AIPlayer.Search: nested searches are bounded by a fuel parameter (1000 levels); a search that exhausts it is treated as a leaf. The engine's search has no such bound. Every child is searched at a lower depth except in the only-move branch, which searches the child at the node's own depth (`src/engine/aiPlayer.ts:217-225`). A chain of positions with one legal move each therefore never lowers the depth, and a cycle of such positions would recurse without end: a node's depth reaches the table only after its search returns (`src/engine/aiPlayer.ts:314-317`), and the clock test never fires (Search.AIPlayer.IsTimeUp). The model does not show whether such a cycle exists among legal positions; where one does, the model's search stops at the fuel bound and the engine's does not stop.
- Search.AIPlayer.GetNextMove: the transposition-table contents after a search are constrained only to remain sound, not to equal the engine's exact table.
- Search.AIPlayer.GetNextMove: the model replays a move from its `from` square (Rules.ApplyPlacement), with pieces as values. The engine's `applyMove` moves the piece object `move.piece` from that object's own `location` (`src/engine/game.ts:420-428`, `engine/board.ts:385-394`). The worker keeps one player, and so one transposition table, per level (`src/engine/aiWorker.ts:19-26`), but builds a fresh board for every request (`src/engine/aiWorker.ts:28-43`, `src/engine/aiWorker.ts:60-63`). A move cached in the table by an earlier request therefore holds a piece object of the earlier board. If that piece has since moved, replaying the move clears the square the object last stood on, puts a second copy of the piece on `to`, and the rollback leaves that square empty, deleting any piece now on it. The model's guarantees that a search and getNextMove leave the board as it was hold only for pieces as values, and do not cover this case.
- Search.AIPlayer.PickBest: `Math.random` becomes a nondeterministic choice among the top moves.
- JavaScript's aliasing of table entries (an entry object mutated after it was stored) has the same net effect as the `Window` update and is modelled that way.
- The reply-count record `countRecord` is an object from a reply count to the moves with that count (`src/engine/aiPlayer.ts:371`). The model keeps the forcing moves with their counts as (move, count) pairs (Grouping.Picked) and rebuilds each count's moves from them (Grouping.Bucket).
- The null/undefined distinction for an absent winner is conflated into `None`.
- Rolling a move back restores the placement exactly but the key order only up to permutation; every modelled observer (hash, move lists via their specifications) is independent of that order.
- Floating-point arithmetic on scores: scores are integers with minus and plus infinity; the fractional depths and adjustments are `real`.

## Findings

| source | as written | input that shows it | evidently intended | confidence | as-written member | corrected member |
|---|---|---|---|---|---|---|
| src/engine/aiPlayer.ts:229 | in the only-move branch, the move pushed onto the top list is the child's best reply (`nextMove`), a move of the opponent | any position with exactly one legal move whose child search returns a reply, when no later child scores better | push the only move itself (`move`) | not executed | Search.OnlyMoveTopAsWrittenWrong | Search.OnlyMoveTopLegal |
