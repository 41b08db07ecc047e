/** The rules the game enforces on top of the board (src/engine/game.ts):
    when a colour stands in check and which pieces give it, the candidate
    moves and their split into captures and quiet moves, promotion, the
    self-check filter and the forced capture, the position a move produces
    and the rollback that restores it, and how a game ends.  Everything here
    is a function of a placement; where the source's lists depend on the key
    order of the board, the functions take that order as a parameter and
    lemmas show that what they contain does not depend on it. */
module Rules {
  import opened Types
  import opened Collections
  import opened Geometry
  import opened Boards
  import GeometryFacts

  // ------------------------------------------------------------------ check

  predicate IsKingOf(pl: Placement, l: Location, c: Color) {
    l in pl && pl[l] == Piece(c, King)
  }

  /** A king of colour c stands on a square the other colour attacks. */
  ghost predicate InCheck(pl: Placement, c: Color) {
    exists k :: IsKingOf(pl, k, c) && IsAttacked(pl, k, ReverseColor(c))
  }

  /** The piece on a attacks some king of colour c. */
  ghost predicate AttacksKingOf(pl: Placement, a: Location, c: Color)
    requires a in pl
  {
    exists k :: IsKingOf(pl, k, c) && CanAttack(pl, a, pl[a], k)
  }

  /** The attackers filter of checkForCheckByBoard over the pieces s. */
  ghost function CheckersAmong(pl: Placement, s: seq<Location>, c: Color): seq<Location>
    requires forall l :: l in s ==> l in pl
    decreases |s|
  {
    if s == [] then []
    else
      var n := |s| - 1;
      assert forall l :: l in s[..n] ==> l in s;
      CheckersAmong(pl, s[..n], c) + (if AttacksKingOf(pl, s[n], c) then [s[n]] else [])
  }

  /** The checkers of colour c: the opponent pieces, in key order, that
      attack one of c's kings. */
  ghost function Checkers(pl: Placement, o: seq<Location>, c: Color): seq<Location>
    requires IsEnumeration(o, pl)
  {
    CheckersAmong(pl, PiecesOf(pl, o, Some(ReverseColor(c))), c)
  }

  /** The two results of checkForCheckByBoard. */
  datatype CheckResult = CheckResult(isInCheck: bool, checkers: seq<Location>)

  lemma CheckersAmongStep(pl: Placement, s: seq<Location>, i: int, c: Color)
    requires 0 <= i < |s| && forall l :: l in s ==> l in pl
    ensures CheckersAmong(pl, s[..i + 1], c)
            == CheckersAmong(pl, s[..i], c) + (if AttacksKingOf(pl, s[i], c) then [s[i]] else [])
  {
    assert s[..i + 1][..i] == s[..i];
  }

  lemma {:induction false} CheckersAmongMembership(pl: Placement, s: seq<Location>, c: Color, l: Location)
    requires forall l :: l in s ==> l in pl
    ensures l in CheckersAmong(pl, s, c) <==> l in s && AttacksKingOf(pl, l, c)
    decreases |s|
  {
    if s != [] {
      var n := |s| - 1;
      assert s == s[..n] + [s[n]];
      CheckersAmongMembership(pl, s[..n], c, l);
    }
  }

  /** The checkers are exactly the opponent pieces attacking a king of c,
      whatever the key order; there is one exactly when c is in check. */
  lemma CheckersMembership(pl: Placement, o: seq<Location>, c: Color)
    requires IsEnumeration(o, pl)
    ensures forall l :: l in Checkers(pl, o, c) <==>
              l in pl && pl[l].color == ReverseColor(c) && AttacksKingOf(pl, l, c)
    ensures |Checkers(pl, o, c)| > 0 <==> InCheck(pl, c)
  {
    var opp := ReverseColor(c);
    var s := PiecesOf(pl, o, Some(opp));
    forall l ensures l in Checkers(pl, o, c) <==> l in pl && pl[l].color == opp && AttacksKingOf(pl, l, c) {
      CheckersAmongMembership(pl, s, c, l);
    }
    if InCheck(pl, c) {
      var k :| IsKingOf(pl, k, c) && IsAttacked(pl, k, opp);
      var a :| a in pl && pl[a].color == opp && CanAttack(pl, a, pl[a], k);
      assert a in Checkers(pl, o, c);
    }
    if |Checkers(pl, o, c)| > 0 {
      var a := Checkers(pl, o, c)[0];
      assert a in Checkers(pl, o, c);
      var k :| IsKingOf(pl, k, c) && CanAttack(pl, a, pl[a], k);
      assert IsAttacked(pl, k, opp);
    }
  }

  /** Without a king of colour c nothing gives check. */
  lemma {:induction false} CheckersWithoutKing(pl: Placement, s: seq<Location>, c: Color)
    requires forall l :: l in s ==> l in pl
    requires forall l :: !IsKingOf(pl, l, c)
    ensures CheckersAmong(pl, s, c) == []
    ensures !InCheck(pl, c)
    decreases |s|
  {
    if s != [] {
      var n := |s| - 1;
      assert forall l :: l in s[..n] ==> l in s;
      CheckersWithoutKing(pl, s[..n], c);
    }
  }

  // -------------------------------------------------------- candidate moves

  /** makeMove: the move of the piece on `from` to `to`, taking what stands
      there; none when `from` is empty or the promotion asked for is a king. */
  function MakeMove(pl: Placement, from: Location, to: Location, promotion: Option<PieceType>): (r: Option<Move>)
    ensures r.Some? <==> from in pl && promotion != Some(King)
    ensures r.Some? ==> r.value == Move(from, to, pl[from], Lookup(pl, to), promotion)
  {
    if from !in pl then None
    else if promotion == Some(King) then None
    else Some(Move(from, to, pl[from], Lookup(pl, to), promotion))
  }

  /** The moves made from `from` to the first k destinations, in order. */
  function MovesFrom(pl: Placement, from: Location, dests: seq<Location>, k: nat): seq<Move>
    requires from in pl && k <= |dests|
  {
    if k == 0 then []
    else MovesFrom(pl, from, dests, k - 1) + [MakeMove(pl, from, dests[k - 1], None).value]
  }

  /** Every location listed holds a piece. */
  predicate AllPlaced(pl: Placement, pieces: seq<Location>) {
    forall l :: l in pieces ==> l in pl
  }

  /** The moves of the pieces on the first k locations of `pieces`, piece by
      piece and destination by destination. */
  function CandidatesAmong(pl: Placement, pieces: seq<Location>, k: nat): seq<Move>
    requires k <= |pieces| && AllPlaced(pl, pieces)
  {
    if k == 0 then []
    else
      var from := pieces[k - 1];
      var dests := MovableLocations(pl, from, pl[from]);
      CandidatesAmong(pl, pieces, k - 1) + MovesFrom(pl, from, dests, |dests|)
  }

  /** The moves generateCandidateMoves builds for colour c before splitting
      and filtering them. */
  function Candidates(pl: Placement, o: seq<Location>, c: Color): seq<Move>
    requires IsEnumeration(o, pl)
  {
    var pieces := PiecesOf(pl, o, Some(c));
    CandidatesAmong(pl, pieces, |pieces|)
  }

  /** The moves of s that capture, in order. */
  function Captures(s: seq<Move>): seq<Move> {
    if s == [] then []
    else Captures(s[..|s| - 1]) + (if s[|s| - 1].captured.Some? then [s[|s| - 1]] else [])
  }

  /** The moves of s that capture nothing, in order. */
  function Quiets(s: seq<Move>): seq<Move> {
    if s == [] then []
    else Quiets(s[..|s| - 1]) + (if s[|s| - 1].captured.None? then [s[|s| - 1]] else [])
  }

  lemma SplitAppend(s: seq<Move>, m: Move)
    ensures Captures(s + [m]) == Captures(s) + (if m.captured.Some? then [m] else [])
    ensures Quiets(s + [m]) == Quiets(s) + (if m.captured.None? then [m] else [])
  {
    assert (s + [m])[..|s|] == s;
  }

  lemma {:induction false} SplitMembership(s: seq<Move>, m: Move)
    ensures m in Captures(s) <==> m in s && m.captured.Some?
    ensures m in Quiets(s) <==> m in s && m.captured.None?
    ensures |Captures(s)| <= |s| && |Quiets(s)| <= |s|
  {
    if s != [] {
      var n := |s| - 1;
      assert s == s[..n] + [s[n]];
      SplitMembership(s[..n], m);
    }
  }

  /** Quiet moves keep every move of s exactly when no move of s captures. */
  lemma {:induction false} QuietsKeepAll(s: seq<Move>)
    ensures |Quiets(s)| <= |s|
    ensures |Quiets(s)| == |s| <==> forall m :: m in s ==> m.captured.None?
  {
    if s != [] {
      var n := |s| - 1;
      assert s == s[..n] + [s[n]];
      QuietsKeepAll(s[..n]);
      SplitMembership(s[..n], s[n]);
    }
  }

  // -------------------------------------------------------------- promotion

  const PromotionChoices: seq<PieceType> := [Queen, Rook, Bishop, Knight]

  /** A pawn arriving on the last rank for its colour (8 for White, 1 for
      Black). */
  predicate IsPromotionMove(m: Move) {
    m.piece.kind == Pawn && m.to.rank == (if m.piece.color == White then 8 else 1)
  }

  /** applyPromotionToMove: the four promoted versions of a promotion move,
      the move itself otherwise. */
  function PromotionsOf(m: Move): seq<Move> {
    if IsPromotionMove(m) then
      [m.(promotion := Some(Queen)), m.(promotion := Some(Rook)),
       m.(promotion := Some(Bishop)), m.(promotion := Some(Knight))]
    else [m]
  }

  /** The flatMap of applyPromotionToMove over s. */
  function FlatPromote(s: seq<Move>): seq<Move> {
    if s == [] then [] else FlatPromote(s[..|s| - 1]) + PromotionsOf(s[|s| - 1])
  }

  /** A move's promotion field is one of the four choices on a promotion
      move and empty otherwise. */
  predicate PromotionFits(m: Move) {
    if IsPromotionMove(m) then m.promotion.Some? && m.promotion.value in PromotionChoices
    else m.promotion.None?
  }

  lemma PromotionsOfMembership(x: Move, m: Move)
    requires x.promotion.None?
    ensures m in PromotionsOf(x) <==> m.(promotion := None) == x && PromotionFits(m)
  {
    if m.(promotion := None) == x {
      assert IsPromotionMove(m) == IsPromotionMove(x);
      if IsPromotionMove(x) && m.promotion.Some? && m.promotion.value in PromotionChoices {
        var t := m.promotion.value;
        assert t == Queen || t == Rook || t == Bishop || t == Knight;
        assert m == x.(promotion := Some(t));
      }
    }
  }

  /** Promoting a list of unpromoted moves yields exactly the moves that
      differ from one of them only in a fitting promotion. */
  lemma {:induction false} FlatPromoteMembership(s: seq<Move>, m: Move)
    requires forall x :: x in s ==> x.promotion.None?
    ensures m in FlatPromote(s) <==> m.(promotion := None) in s && PromotionFits(m)
  {
    if s != [] {
      var n := |s| - 1;
      assert s == s[..n] + [s[n]];
      assert forall x :: x in s[..n] ==> x in s;
      FlatPromoteMembership(s[..n], m);
      PromotionsOfMembership(s[n], m);
    }
  }

  // ---------------------------------------------------- applying a move

  /** applyMove on the placement: the piece on `from` goes to `to`, taking
      what stood there, and becomes the promotion type if there is one.
      When `from` is empty the board stays as it is. */
  function ApplyPlacement(pl: Placement, m: Move): Placement {
    if m.from !in pl then pl
    else
      var moved := (pl - {m.from})[m.to := pl[m.from]];
      if m.promotion.Some? then moved[m.to := Piece(pl[m.from].color, m.promotion.value)] else moved
  }

  /** The move applyMove hands back: the captured field is what movePiece
      took, or the move's own when it took nothing. */
  function AppliedMove(pl: Placement, m: Move): Move {
    if m.from in pl && m.to in pl then m.(captured := Some(pl[m.to])) else m
  }

  /** rollbackMove on the placement: the piece on `to` turns back into a
      pawn if the move promoted, returns to `from`, and the captured piece
      is put back on `to`. */
  function RollbackPlacement(pl: Placement, m: Move): Placement {
    var demoted := if m.promotion.Some? && m.to in pl then pl[m.to := Piece(pl[m.to].color, Pawn)] else pl;
    var back := if m.to in demoted then (demoted - {m.to})[m.from := demoted[m.to]] else demoted;
    if m.captured.Some? then back[m.to := m.captured.value] else back
  }

  /** What rollback relies on: the mover stands on `from`, the move goes
      somewhere else, it records what stands on `to`, and only a pawn
      promotes. */
  predicate Consistent(pl: Placement, m: Move) {
    m.from in pl && m.from != m.to && m.captured == Lookup(pl, m.to)
    && (m.promotion.Some? ==> pl[m.from].kind == Pawn)
  }

  /** Rolling back the applied move restores the placement exactly. */
  lemma RollbackRestores(pl: Placement, m: Move)
    requires Consistent(pl, m)
    ensures AppliedMove(pl, m) == m
    ensures RollbackPlacement(ApplyPlacement(pl, m), m) == pl
  {
    var after := ApplyPlacement(pl, m);
    var r := RollbackPlacement(after, m);
    assert m.to in after && after[m.to].color == pl[m.from].color;
    forall l ensures Lookup(r, l) == Lookup(pl, l) {
    }
    assert r == pl by {
      assert r.Keys == pl.Keys;
      forall l | l in pl ensures r[l] == pl[l] {
        assert Lookup(r, l) == Lookup(pl, l);
      }
    }
  }

  // ------------------------------------------------------------ legality

  /** m is what makeMove builds for a piece of colour c and one of its
      movable locations: the piece, what stands on the target, no promotion. */
  ghost predicate IsBaseCandidate(pl: Placement, c: Color, m: Move) {
    m.from in pl && pl[m.from].color == c
    && m.to in MovableLocations(pl, m.from, pl[m.from])
    && m == Move(m.from, m.to, pl[m.from], Lookup(pl, m.to), None)
  }

  /** m is one of the moves generateCandidateMoves produces for colour c:
      a base candidate, promoted as applyPromotionToMove does. */
  ghost predicate IsCandidate(pl: Placement, c: Color, m: Move) {
    IsBaseCandidate(pl, c, m.(promotion := None)) && PromotionFits(m)
  }

  /** A candidate that does not leave the mover's own king attacked. */
  ghost predicate IsSafe(pl: Placement, c: Color, m: Move) {
    IsCandidate(pl, c, m) && !InCheck(ApplyPlacement(pl, m), c)
  }

  /** Capturing is compulsory: some safe move of c captures. */
  ghost predicate CaptureForced(pl: Placement, c: Color) {
    exists m :: IsSafe(pl, c, m) && m.captured.Some?
  }

  /** The legal moves: the safe captures when there are any, the safe quiet
      moves otherwise. */
  ghost predicate IsLegal(pl: Placement, c: Color, m: Move) {
    IsSafe(pl, c, m) && (CaptureForced(pl, c) ==> m.captured.Some?)
  }

  ghost predicate HasNoLegalMove(pl: Placement, c: Color) {
    forall m :: !IsLegal(pl, c, m)
  }

  /** Every candidate can be rolled back. */
  /** A base candidate moves a piece off its square and names what it
      takes. */
  lemma BaseCandidateConsistent(pl: Placement, c: Color, m: Move)
    requires IsBaseCandidate(pl, c, m)
    ensures Consistent(pl, m)
  {
    GeometryFacts.MovesAvoidOwnPieces(pl, m.from, pl[m.from], m.to);
  }

  lemma CandidateConsistent(pl: Placement, c: Color, m: Move)
    requires IsCandidate(pl, c, m)
    ensures Consistent(pl, m)
  {
    BaseCandidateConsistent(pl, c, m.(promotion := None));
  }

  /** Legal moves are consistent with the placement they are legal in. */
  lemma LegalConsistent(pl: Placement, c: Color, m: Move)
    requires IsLegal(pl, c, m)
    ensures Consistent(pl, m)
  {
    CandidateConsistent(pl, c, m);
  }

  /** Two legal moves with the same squares and promotion are the same move,
      so the search of progressTurn picks out one move at most. */
  lemma LegalMoveDetermined(pl: Placement, c: Color, m1: Move, m2: Move)
    requires IsLegal(pl, c, m1) && IsLegal(pl, c, m2)
    requires m1.from == m2.from && m1.to == m2.to && m1.promotion == m2.promotion
    ensures m1 == m2
  {
  }

  lemma {:induction false} MovesFromMembership(pl: Placement, from: Location, dests: seq<Location>, k: nat, m: Move)
    requires from in pl && k <= |dests|
    ensures m in MovesFrom(pl, from, dests, k) <==>
            m.to in dests[..k] && m == Move(from, m.to, pl[from], Lookup(pl, m.to), None)
  {
    if k > 0 {
      MovesFromMembership(pl, from, dests, k - 1, m);
      assert dests[..k] == dests[..k - 1] + [dests[k - 1]];
    }
  }

  /** m is what makeMove builds for the piece on m.from and one of its
      movable locations, whatever its colour. */
  ghost predicate IsPieceMove(pl: Placement, m: Move) {
    m.from in pl
    && m.to in MovableLocations(pl, m.from, pl[m.from])
    && m == Move(m.from, m.to, pl[m.from], Lookup(pl, m.to), None)
  }

  /** The moves of one piece are the moves from its square to its movable
      squares. */
  lemma OwnMovesMembership(pl: Placement, from: Location, m: Move)
    requires from in pl
    ensures m in MovesFrom(pl, from, MovableLocations(pl, from, pl[from]), |MovableLocations(pl, from, pl[from])|) <==>
            m.from == from && IsPieceMove(pl, m)
  {
    var dests := MovableLocations(pl, from, pl[from]);
    MovesFromMembership(pl, from, dests, |dests|, m);
    assert dests[..|dests|] == dests;
  }

  lemma {:induction false} CandidatesAmongMembership(pl: Placement, pieces: seq<Location>, k: nat, m: Move)
    requires k <= |pieces| && AllPlaced(pl, pieces)
    ensures m in CandidatesAmong(pl, pieces, k) <==> m.from in pieces[..k] && IsPieceMove(pl, m)
    decreases k, 1
  {
    if k > 0 {
      CandidatesAmongInduction(pl, pieces, k - 1, m);
    }
  }

  /** The induction step of CandidatesAmongMembership: from the first j
      pieces to the first j + 1. */
  lemma {:induction false} CandidatesAmongInduction(pl: Placement, pieces: seq<Location>, j: nat, m: Move)
    requires j < |pieces| && AllPlaced(pl, pieces)
    ensures m in CandidatesAmong(pl, pieces, j + 1) <==> m.from in pieces[..j + 1] && IsPieceMove(pl, m)
    decreases j + 1, 0
  {
    CandidatesAmongMembership(pl, pieces, j, m);
    CandidatesAmongStep(pl, pieces, j, m);
  }

  /** The candidates of one more piece are those of the pieces before and
      that piece's own moves. */
  lemma CandidatesAmongStep(pl: Placement, pieces: seq<Location>, j: nat, m: Move)
    requires j < |pieces| && AllPlaced(pl, pieces)
    ensures m in CandidatesAmong(pl, pieces, j + 1) <==>
            m in CandidatesAmong(pl, pieces, j) || (m.from == pieces[j] && IsPieceMove(pl, m))
    ensures m.from in pieces[..j + 1] <==> m.from in pieces[..j] || m.from == pieces[j]
  {
    assert pieces[..j + 1] == pieces[..j] + [pieces[j]];
    var from := pieces[j];
    var dests := MovableLocations(pl, from, pl[from]);
    assert CandidatesAmong(pl, pieces, j + 1) == CandidatesAmong(pl, pieces, j) + MovesFrom(pl, from, dests, |dests|);
    OwnMovesMembership(pl, from, m);
  }

  /** The unpromoted candidate list holds exactly the base candidates, for
      every key order. */
  lemma CandidatesMembership(pl: Placement, o: seq<Location>, c: Color, m: Move)
    requires IsEnumeration(o, pl)
    ensures m in Candidates(pl, o, c) <==> IsBaseCandidate(pl, c, m)
  {
    var pieces := PiecesOf(pl, o, Some(c));
    CandidatesAmongMembership(pl, pieces, |pieces|, m);
    assert pieces[..|pieces|] == pieces;
  }

  // ------------------------------------------------------ self-check filter

  /** The moves of s after which the mover's king is not attacked. */
  ghost function SafeMoves(pl: Placement, c: Color, s: seq<Move>): seq<Move> {
    if s == [] then []
    else
      var n := |s| - 1;
      SafeMoves(pl, c, s[..n]) + (if !InCheck(ApplyPlacement(pl, s[n]), c) then [s[n]] else [])
  }

  lemma SafeMovesStep(pl: Placement, c: Color, s: seq<Move>, i: int)
    requires 0 <= i < |s|
    ensures SafeMoves(pl, c, s[..i + 1])
            == SafeMoves(pl, c, s[..i]) + (if !InCheck(ApplyPlacement(pl, s[i]), c) then [s[i]] else [])
  {
    assert s[..i + 1][..i] == s[..i];
  }

  lemma {:induction false} SafeMovesMembership(pl: Placement, c: Color, s: seq<Move>, m: Move)
    ensures m in SafeMoves(pl, c, s) <==> m in s && !InCheck(ApplyPlacement(pl, m), c)
  {
    if s != [] {
      var n := |s| - 1;
      assert s == s[..n] + [s[n]];
      SafeMovesMembership(pl, c, s[..n], m);
    }
  }

  /** The promoted captures and quiet moves before the self-check filter. */
  function PromotedCaptures(pl: Placement, o: seq<Location>, c: Color): seq<Move>
    requires IsEnumeration(o, pl)
  {
    FlatPromote(Captures(Candidates(pl, o, c)))
  }

  function PromotedQuiets(pl: Placement, o: seq<Location>, c: Color): seq<Move>
    requires IsEnumeration(o, pl)
  {
    FlatPromote(Quiets(Candidates(pl, o, c)))
  }

  /** The two lists generateCandidateMoves returns. */
  ghost function GeneratedCaptures(pl: Placement, o: seq<Location>, c: Color): seq<Move>
    requires IsEnumeration(o, pl)
  {
    SafeMoves(pl, c, PromotedCaptures(pl, o, c))
  }

  ghost function GeneratedQuiets(pl: Placement, o: seq<Location>, c: Color): seq<Move>
    requires IsEnumeration(o, pl)
  {
    SafeMoves(pl, c, PromotedQuiets(pl, o, c))
  }

  /** getLegalMoves computed afresh under key order o. */
  ghost function LegalMoves(pl: Placement, o: seq<Location>, c: Color): seq<Move>
    requires IsEnumeration(o, pl)
  {
    if |GeneratedCaptures(pl, o, c)| > 0 then GeneratedCaptures(pl, o, c) else GeneratedQuiets(pl, o, c)
  }

  /** The promoted lists hold candidates, split by whether they capture. */
  lemma PromotedMembership(pl: Placement, o: seq<Location>, c: Color, m: Move)
    requires IsEnumeration(o, pl)
    ensures m in PromotedCaptures(pl, o, c) <==> IsCandidate(pl, c, m) && m.captured.Some?
    ensures m in PromotedQuiets(pl, o, c) <==> IsCandidate(pl, c, m) && m.captured.None?
  {
    var cands := Candidates(pl, o, c);
    var x := m.(promotion := None);
    forall y | y in Captures(cands) ensures y.promotion.None? {
      SplitMembership(cands, y);
      CandidatesMembership(pl, o, c, y);
    }
    forall y | y in Quiets(cands) ensures y.promotion.None? {
      SplitMembership(cands, y);
      CandidatesMembership(pl, o, c, y);
    }
    FlatPromoteMembership(Captures(cands), m);
    FlatPromoteMembership(Quiets(cands), m);
    SplitMembership(cands, x);
    CandidatesMembership(pl, o, c, x);
  }

  /** Every move of the promoted lists can be rolled back. */
  lemma PromotedConsistent(pl: Placement, o: seq<Location>, c: Color)
    requires IsEnumeration(o, pl)
    ensures forall m :: m in PromotedCaptures(pl, o, c) ==> Consistent(pl, m)
    ensures forall m :: m in PromotedQuiets(pl, o, c) ==> Consistent(pl, m)
  {
    forall m | m in PromotedCaptures(pl, o, c) || m in PromotedQuiets(pl, o, c) ensures Consistent(pl, m) {
      PromotedMembership(pl, o, c, m);
      CandidateConsistent(pl, c, m);
    }
  }

  /** The lists generateCandidateMoves returns hold the safe captures and the
      safe quiet moves; captures are forced exactly when the first is not
      empty.  Neither depends on the key order. */
  lemma GeneratedMembership(pl: Placement, o: seq<Location>, c: Color)
    requires IsEnumeration(o, pl)
    ensures forall m :: m in GeneratedCaptures(pl, o, c) <==> IsSafe(pl, c, m) && m.captured.Some?
    ensures forall m :: m in GeneratedQuiets(pl, o, c) <==> IsSafe(pl, c, m) && m.captured.None?
    ensures |GeneratedCaptures(pl, o, c)| > 0 <==> CaptureForced(pl, c)
  {
    forall m ensures m in GeneratedCaptures(pl, o, c) <==> IsSafe(pl, c, m) && m.captured.Some?
             ensures m in GeneratedQuiets(pl, o, c) <==> IsSafe(pl, c, m) && m.captured.None? {
      PromotedMembership(pl, o, c, m);
      SafeMovesMembership(pl, c, PromotedCaptures(pl, o, c), m);
      SafeMovesMembership(pl, c, PromotedQuiets(pl, o, c), m);
    }
    if |GeneratedCaptures(pl, o, c)| > 0 {
      assert GeneratedCaptures(pl, o, c)[0] in GeneratedCaptures(pl, o, c);
    }
  }

  /** getLegalMoves yields exactly the legal moves, for every key order. */
  lemma LegalMovesMembership(pl: Placement, o: seq<Location>, c: Color)
    requires IsEnumeration(o, pl)
    ensures forall m :: m in LegalMoves(pl, o, c) <==> IsLegal(pl, c, m)
    ensures |LegalMoves(pl, o, c)| == 0 <==> HasNoLegalMove(pl, c)
  {
    GeneratedMembership(pl, o, c);
    if |LegalMoves(pl, o, c)| > 0 {
      assert LegalMoves(pl, o, c)[0] in LegalMoves(pl, o, c);
    }
  }

  /** Capturing is forced exactly when the generated captures are not empty. */
  lemma GeneratedForced(pl: Placement, o: seq<Location>, c: Color)
    requires IsEnumeration(o, pl)
    ensures |GeneratedCaptures(pl, o, c)| > 0 <==> CaptureForced(pl, c)
  {
    GeneratedMembership(pl, o, c);
  }

  /** The list of legal moves is empty exactly when there is no legal move. */
  lemma LegalMovesEmpty(pl: Placement, o: seq<Location>, c: Color)
    requires IsEnumeration(o, pl)
    ensures |LegalMoves(pl, o, c)| == 0 <==> HasNoLegalMove(pl, c)
  {
    LegalMovesMembership(pl, o, c);
  }

  // ------------------------------------------------------------- game end

  /** isOnlyKingLeft: colour c has no piece other than kings. */
  predicate OnlyKingLeftFor(pl: Placement, c: Color) {
    forall l :: l in pl && pl[l].color == c ==> pl[l].kind == King
  }

  /** isLoneIsland in its current form: not in check, with legal moves, all
      of them king moves that capture nothing. */
  ghost predicate LoneIslandFor(pl: Placement, c: Color) {
    !InCheck(pl, c) && !HasNoLegalMove(pl, c)
    && forall m :: IsLegal(pl, c, m) ==> m.piece.kind == King && m.captured.None?
  }

  /** How the game ends once colour c is to move, the four tests in the order
      progressTurn makes them, the first that holds deciding. */
  ghost function EndFor(pl: Placement, c: Color): Option<GameEndReason> {
    if OnlyKingLeftFor(pl, c) then Some(OnlyKingLeft)
    else if InCheck(pl, c) && HasNoLegalMove(pl, c) then Some(Checkmate)
    else if !InCheck(pl, c) && HasNoLegalMove(pl, c) then Some(Stalemate)
    else if LoneIslandFor(pl, c) then Some(LoneIsland)
    else None
  }

  /** The winner finishGame records: nobody on stalemate, otherwise the
      colour that reached the end position. */
  function WinnerFor(reason: GameEndReason, c: Color): Option<Color> {
    if reason == Stalemate then None else Some(c)
  }

  /** isLoneIsland on the list of legal moves: not in check, the list not
      empty, and keeping only its quiet king moves drops none of it. */
  lemma LoneIslandLegal(pl: Placement, o: seq<Location>, c: Color)
    requires IsEnumeration(o, pl)
    ensures LoneIslandFor(pl, c) <==>
            !InCheck(pl, c) && |LegalMoves(pl, o, c)| > 0
            && |Quiets(KingMoves(LegalMoves(pl, o, c)))| == |LegalMoves(pl, o, c)|
  {
    LegalMovesMembership(pl, o, c);
    LoneIslandCount(LegalMoves(pl, o, c));
  }

  /** The moves of s made by a king. */
  function KingMoves(s: seq<Move>): seq<Move> {
    if s == [] then []
    else KingMoves(s[..|s| - 1]) + (if s[|s| - 1].piece.kind == King then [s[|s| - 1]] else [])
  }

  lemma {:induction false} KingMovesKeepAll(s: seq<Move>)
    ensures forall m :: m in KingMoves(s) <==> m in s && m.piece.kind == King
    ensures |KingMoves(s)| <= |s|
    ensures |KingMoves(s)| == |s| <==> forall m :: m in s ==> m.piece.kind == King
  {
    if s != [] {
      var n := |s| - 1;
      assert s == s[..n] + [s[n]];
      KingMovesKeepAll(s[..n]);
    }
  }

  /** The count test of isLoneIsland: the non-capturing king moves are as
      many as the moves exactly when every move is one. */
  lemma LoneIslandCount(s: seq<Move>)
    ensures |Quiets(KingMoves(s))| == |s| <==>
            forall m :: m in s ==> m.piece.kind == King && m.captured.None?
  {
    KingMovesKeepAll(s);
    QuietsKeepAll(KingMoves(s));
    if forall m :: m in s ==> m.piece.kind == King {
      KingMovesAll(s);
    }
  }

  lemma {:induction false} KingMovesAll(s: seq<Move>)
    requires forall m :: m in s ==> m.piece.kind == King
    ensures KingMoves(s) == s
  {
    if s != [] {
      var n := |s| - 1;
      assert s == s[..n] + [s[n]];
      assert forall m :: m in s[..n] ==> m in s;
      KingMovesAll(s[..n]);
    }
  }

  /** The pieces among s that are not kings (the filter of isOnlyKingLeft). */
  function NonKings(pl: Placement, s: seq<Location>): seq<Location>
    requires forall l :: l in s ==> l in pl
    decreases |s|
  {
    if s == [] then []
    else
      var n := |s| - 1;
      assert forall l :: l in s[..n] ==> l in s;
      NonKings(pl, s[..n]) + (if pl[s[n]].kind != King then [s[n]] else [])
  }

  lemma {:induction false} NonKingsMembership(pl: Placement, s: seq<Location>, l: Location)
    requires forall l :: l in s ==> l in pl
    ensures l in NonKings(pl, s) <==> l in s && pl[l].kind != King
    decreases |s|
  {
    if s != [] {
      var n := |s| - 1;
      assert s == s[..n] + [s[n]];
      NonKingsMembership(pl, s[..n], l);
    }
  }

  /** No non-king among s exactly when every piece of s is a king. */
  lemma NonKingsNone(pl: Placement, s: seq<Location>)
    requires forall l :: l in s ==> l in pl
    ensures |NonKings(pl, s)| == 0 <==> forall l :: l in s ==> pl[l].kind == King
  {
    forall l ensures l in NonKings(pl, s) <==> l in s && pl[l].kind != King {
      NonKingsMembership(pl, s, l);
    }
    if |NonKings(pl, s)| > 0 {
      assert NonKings(pl, s)[0] in NonKings(pl, s);
    }
  }
}
