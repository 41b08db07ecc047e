/** The move ordering getTTEntry builds for a position (src/engine/aiPlayer.ts):
    the legal moves after which the opponent is in check or must capture go
    to the top list, grouped by how many legal replies the opponent has,
    fewest first; the other moves go to the bottom list in their original
    order. */
module MoveOrder {
  import opened Types
  import opened Collections
  import opened Geometry
  import opened Rules
  import opened Grouping

  /** A list of legal moves as getLegalMoves produces it: the legal moves of
      colour c generated under some key order of the placement. */
  ghost predicate IsLegalList(pl: Placement, c: Color, s: seq<Move>) {
    exists o :: IsEnumeration(o, pl) && s == LegalMoves(pl, o, c)
  }

  /** Every move of s is legal. */
  ghost predicate AllLegal(pl: Placement, c: Color, s: seq<Move>) {
    forall m :: m in s ==> IsLegal(pl, c, m)
  }

  /** A legal list holds exactly the legal moves; it is empty exactly when
      there is none. */
  lemma LegalListMembership(pl: Placement, c: Color, s: seq<Move>)
    requires IsLegalList(pl, c, s)
    ensures AllLegal(pl, c, s)
    ensures forall m :: IsLegal(pl, c, m) ==> m in s
    ensures |s| == 0 <==> HasNoLegalMove(pl, c)
  {
    var o :| IsEnumeration(o, pl) && s == LegalMoves(pl, o, c);
    LegalMovesMembership(pl, o, c);
  }

  /** After m the opponent is in check or must capture. */
  ghost predicate Forcing(pl: Placement, c: Color, m: Move) {
    var after := ApplyPlacement(pl, m);
    InCheck(after, ReverseColor(c)) || CaptureForced(after, ReverseColor(c))
  }

  /** After m the opponent has n legal replies. */
  ghost predicate ReplyCount(pl: Placement, c: Color, m: Move, n: nat) {
    exists s :: IsLegalList(ApplyPlacement(pl, m), ReverseColor(c), s) && |s| == n
  }

  ghost function ForcingTest(pl: Placement, c: Color): Move -> bool {
    m => Forcing(pl, c, m)
  }

  ghost function ReplyTest(pl: Placement, c: Color): (Move, nat) -> bool {
    (m: Move, n: nat) => ReplyCount(pl, c, m, n)
  }

  /** flags records, move by move, what the classification loop finds: whether
      the move is forcing and, for a forcing move, the opponent's reply
      count. */
  ghost predicate Classified(pl: Placement, c: Color, s: seq<Move>, flags: seq<(bool, nat)>) {
    FlagsFit(s, flags, ForcingTest(pl, c), ReplyTest(pl, c))
  }

  /** getTTEntry's ordering of the legal list s: top is the forcing moves
      grouped by ascending reply count, bottom the other moves. */
  ghost predicate Ordered(pl: Placement, c: Color, s: seq<Move>, top: seq<Move>, bottom: seq<Move>) {
    exists flags :: Classified(pl, c, s, flags) && bottom == Rest(s, flags) && top == TopOrder(Picked(s, flags))
  }

  /** The ordering loses and adds no move. */
  lemma OrderedPermutation(pl: Placement, c: Color, s: seq<Move>, top: seq<Move>, bottom: seq<Move>)
    requires Ordered(pl, c, s, top, bottom)
    ensures multiset(top) + multiset(bottom) == multiset(s)
  {
    var flags :| Classified(pl, c, s, flags) && bottom == Rest(s, flags) && top == TopOrder(Picked(s, flags));
    OrderPermutation(s, flags, top, bottom);
  }

  /** The bottom list holds the moves that are not forcing. */
  lemma OrderedBottom(pl: Placement, c: Color, s: seq<Move>, top: seq<Move>, bottom: seq<Move>)
    requires Ordered(pl, c, s, top, bottom)
    ensures forall m :: m in bottom ==> m in s && !Forcing(pl, c, m)
  {
    var flags :| Classified(pl, c, s, flags) && bottom == Rest(s, flags) && top == TopOrder(Picked(s, flags));
    OrderBottom(s, flags, ForcingTest(pl, c), ReplyTest(pl, c), bottom);
  }

  /** The top list holds the forcing moves. */
  lemma OrderedTop(pl: Placement, c: Color, s: seq<Move>, top: seq<Move>, bottom: seq<Move>)
    requires Ordered(pl, c, s, top, bottom)
    ensures forall m :: m in top ==> m in s && Forcing(pl, c, m)
  {
    var flags :| Classified(pl, c, s, flags) && bottom == Rest(s, flags) && top == TopOrder(Picked(s, flags));
    OrderTop(s, flags, ForcingTest(pl, c), ReplyTest(pl, c), top);
  }

  /** Along the top list the opponent's reply counts ascend. */
  lemma OrderedCounts(pl: Placement, c: Color, s: seq<Move>, top: seq<Move>, bottom: seq<Move>)
      returns (g: seq<Counted<Move>>)
    requires Ordered(pl, c, s, top, bottom)
    ensures Items(g) == top && forall p :: p in g ==> ReplyCount(pl, c, p.0, p.1)
    ensures forall i, j :: 0 <= i < j < |g| ==> g[i].1 <= g[j].1
  {
    var flags :| Classified(pl, c, s, flags) && bottom == Rest(s, flags) && top == TopOrder(Picked(s, flags));
    g := OrderCounts(s, flags, ForcingTest(pl, c), ReplyTest(pl, c), top);
    forall p | p in g ensures ReplyCount(pl, c, p.0, p.1) {
      assert ReplyTest(pl, c)(p.0, p.1);
    }
  }

  /** Ordering the moves of a legal list keeps only legal moves. */
  lemma OrderedLegal(pl: Placement, c: Color, s: seq<Move>, top: seq<Move>, bottom: seq<Move>)
    requires IsLegalList(pl, c, s) && Ordered(pl, c, s, top, bottom)
    ensures AllLegal(pl, c, top) && AllLegal(pl, c, bottom)
  {
    LegalListMembership(pl, c, s);
    OrderedTop(pl, c, s, top, bottom);
    OrderedBottom(pl, c, s, top, bottom);
  }
}
