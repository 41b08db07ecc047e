/** The static evaluation of the search (evaluate in src/engine/aiPlayer.ts):
    a colour's material is the sum of the values of its pieces, and since in
    this variant a side that loses its material wins, a position scores the
    opponent's material minus the root player's own. */
module Evaluation {
  import opened Types
  import opened Collections
  import opened Geometry
  import opened Boards

  /** The value of a piece type; a king counts nothing. */
  function PieceValue(k: PieceType): (v: nat)
    ensures v == 0 <==> k == King
    ensures v <= 9
  {
    match k
    case Pawn => 1
    case Knight => 3
    case Bishop => 5
    case Rook => 7
    case Queen => 9
    case King => 0
  }

  /** The value of what stands on l, nothing for an empty square. */
  function ValueAt(pl: Placement, l: Location): nat {
    if l in pl then PieceValue(pl[l].kind) else 0
  }

  function ValueOn(pl: Placement): Location -> int {
    l => ValueAt(pl, l)
  }

  /** The material on the listed squares. */
  function MaterialOn(pl: Placement, pieces: seq<Location>): int {
    SumOver(pieces, ValueOn(pl))
  }

  /** The material of colour c, its pieces listed in the key order o. */
  function MaterialOf(pl: Placement, o: seq<Location>, c: Color): int
    requires forall l :: l in o ==> l in pl
  {
    MaterialOn(pl, PiecesOf(pl, o, Some(c)))
  }

  lemma {:induction false} SumOverBounds(pl: Placement, s: seq<Location>)
    ensures SumOver(s, ValueOn(pl)) >= 0
    ensures (forall l :: l in s ==> ValueAt(pl, l) == 0) ==> SumOver(s, ValueOn(pl)) == 0
    decreases |s|
  {
    if s != [] {
      var n := |s| - 1;
      SumOverBounds(pl, s[..n]);
      assert forall l :: l in s[..n] ==> l in s;
      assert s[n] in s;
    }
  }

  /** Material is never negative, and a colour with nothing but kings has
      none: that is the material a side aims to reach. */
  lemma MaterialBounds(pl: Placement, o: seq<Location>, c: Color)
    requires forall l :: l in o ==> l in pl
    ensures MaterialOf(pl, o, c) >= 0
    ensures (forall l :: l in pl && pl[l].color == c ==> pl[l].kind == King) ==> MaterialOf(pl, o, c) == 0
  {
    SumOverBounds(pl, PiecesOf(pl, o, Some(c)));
  }

  /** The material does not depend on the key order the pieces are listed
      in. */
  lemma MaterialOrderIndependent(pl: Placement, o1: seq<Location>, o2: seq<Location>, c: Color)
    requires IsEnumeration(o1, pl) && IsEnumeration(o2, pl)
    ensures MaterialOf(pl, o1, c) == MaterialOf(pl, o2, c)
  {
    SumOverPermutation(PiecesOf(pl, o1, Some(c)), PiecesOf(pl, o2, Some(c)), ValueOn(pl));
  }

  /** material(color): the loop over getAllPieces(color). */
  method Material(board: Board, color: Color) returns (score: int)
    requires board.Valid()
    ensures score == MaterialOf(board.pieceByLocation, board.keyOrder, color)
  {
    var pl := board.pieceByLocation;
    var pieces := board.GetAllPieces(Some(color));
    score := 0;
    for i := 0 to |pieces|
      invariant score == MaterialOn(pl, pieces[..i])
    {
      assert pieces[i] in pieces;
      assert pieces[..i + 1][..i] == pieces[..i];
      score := score + PieceValue(pl[pieces[i]].kind);
    }
    assert pieces[..|pieces|] == pieces;
  }

  /** The score of a position for the root player: the opponent's material
      minus its own. */
  function Score(pl: Placement, o: seq<Location>, root: Color): int
    requires forall l :: l in o ==> l in pl
  {
    MaterialOf(pl, o, ReverseColor(root)) - MaterialOf(pl, o, root)
  }

  /** The two players see each other's scores negated. */
  lemma ScoreAntisymmetric(pl: Placement, o: seq<Location>, root: Color)
    requires forall l :: l in o ==> l in pl
    ensures Score(pl, o, ReverseColor(root)) == -Score(pl, o, root)
  {
    ReverseColorInvolution(root);
  }
}
