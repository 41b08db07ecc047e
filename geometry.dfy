/** The board geometry of engine/board.ts as pure functions of a placement:
    square indexing, the piece movement rules (no castling, no en passant;
    promotion is the game's business) and the attack test.  The Board class
    (board.dfy) computes exactly these with loops over its own state. */
module Geometry {
  import opened Types

  /** Where the pieces stand: the board's location-to-piece index. */
  type Placement = map<Location, Piece>

  function FileIndex(l: Location): (i: int)
    ensures 0 <= i < 8
  {
    FileToIndex(l.file)
  }

  function RankIndex(l: Location): (i: int)
    ensures 0 <= i < 8
  {
    RankToIndex(l.rank)
  }

  /** createLocation: the location with these indices, when both are on the board. */
  function CreateLocation(fi: int, ri: int): (r: Option<Location>)
    ensures r.Some? <==> 0 <= fi < 8 && 0 <= ri < 8
    ensures r.Some? ==> FileIndex(r.value) == fi && RankIndex(r.value) == ri
  {
    if 0 <= fi < 8 && 0 <= ri < 8 then Some(Location((('a' as int) + fi) as char, ri + 1)) else None
  }

  /** A location is determined by its two indices. */
  lemma LocationByIndices(l: Location, m: Location)
    requires FileIndex(l) == FileIndex(m) && RankIndex(l) == RankIndex(m)
    ensures l == m
  {
  }

  lemma CreateLocationOfIndices(l: Location)
    ensures CreateLocation(FileIndex(l), RankIndex(l)) == Some(l)
  {
    LocationByIndices(l, CreateLocation(FileIndex(l), RankIndex(l)).value);
  }

  /** getSquareIndex: the row-major position of a location among the 64 squares. */
  function SquareIndex(l: Location): (i: int)
    ensures 0 <= i < 64
  {
    RankIndex(l) * 8 + FileIndex(l)
  }

  /** Different locations have different square indices. */
  lemma SquareIndexInjective(l: Location, m: Location)
    requires SquareIndex(l) == SquareIndex(m)
    ensures l == m
  {
    LocationByIndices(l, m);
  }

  /** The location whose square index is i (the inverse of SquareIndex). */
  function LocationOfIndex(i: int): (l: Location)
    requires 0 <= i < 64
    ensures SquareIndex(l) == i
  {
    CreateLocation(i % 8, i / 8).value
  }

  lemma LocationOfSquareIndex(l: Location)
    ensures LocationOfIndex(SquareIndex(l)) == l
  {
    SquareIndexInjective(l, LocationOfIndex(SquareIndex(l)));
  }

  predicate OccupiedByOwn(pl: Placement, l: Location, c: Color) {
    l in pl && pl[l].color == c
  }

  predicate OccupiedByOpponent(pl: Placement, l: Location, c: Color) {
    l in pl && pl[l].color != c
  }

  /** On the board and empty: the condition for a sliding piece to pass a square. */
  predicate PathSquareEmpty(pl: Placement, f: int, r: int) {
    match CreateLocation(f, r)
    case None => false
    case Some(l) => l !in pl
  }

  function Abs(x: int): nat {
    if x < 0 then -x else x
  }

  function Sign(x: int): int {
    if x > 0 then 1 else if x < 0 then -1 else 0
  }

  function Max(x: int, y: int): int {
    if x < y then y else x
  }

  /** k steps of size s, for a step s in {-1, 0, 1}. */
  function Scale(k: int, s: int): int {
    if s > 0 then k else if s < 0 then -k else 0
  }

  // ---------------------------------------------------------------- pawns

  function PawnDirection(c: Color): int {
    if c == White then 1 else -1
  }

  function StartRank(c: Color): Rank {
    if c == White then 2 else 7
  }

  const PawnCaptureOffsets: seq<int> := [-1, 1]

  /** The pawn's steps forward: one square if it is empty, and from the start
      rank a second square if that one is empty too. */
  function PawnAdvances(pl: Placement, from: Location, c: Color): seq<Location> {
    var fi, ri, dir := FileIndex(from), RankIndex(from), PawnDirection(c);
    match CreateLocation(fi, ri + dir)
    case None => []
    case Some(one) =>
      if one in pl then []
      else if from.rank != StartRank(c) then [one]
      else
        match CreateLocation(fi, ri + 2 * dir)
        case None => [one]
        case Some(two) => if two in pl then [one] else [one, two]
  }

  /** The capture targets on rank index `ri` at the first k file offsets of
      `dfs`, in order. */
  function PawnCaptures(pl: Placement, fi: int, ri: int, c: Color, dfs: seq<int>, k: nat): seq<Location>
    requires k <= |dfs|
  {
    if k == 0 then []
    else
      var prev := PawnCaptures(pl, fi, ri, c, dfs, k - 1);
      match CreateLocation(fi + dfs[k - 1], ri)
      case None => prev
      case Some(t) => if OccupiedByOpponent(pl, t, c) then prev + [t] else prev
  }

  function PawnMoves(pl: Placement, from: Location, c: Color): seq<Location> {
    PawnAdvances(pl, from, c)
      + PawnCaptures(pl, FileIndex(from), RankIndex(from) + PawnDirection(c), c, PawnCaptureOffsets, 2)
  }

  // ------------------------------------------------- knights, kings, sliders

  datatype Offset = Offset(df: int, dr: int)

  /** A single step in one of the eight directions. */
  predicate UnitStep(d: Offset) {
    -1 <= d.df <= 1 && -1 <= d.dr <= 1 && (d.df != 0 || d.dr != 0)
  }

  /** The direction of a sliding ray. */
  type Direction = d: Offset | UnitStep(d) witness Offset(1, 0)

  const KnightOffsets: seq<Offset> :=
    [Offset(1, 2), Offset(2, 1), Offset(2, -1), Offset(1, -2),
     Offset(-1, -2), Offset(-2, -1), Offset(-2, 1), Offset(-1, 2)]

  const KingOffsets: seq<Offset> :=
    [Offset(1, 0), Offset(1, 1), Offset(0, 1), Offset(-1, 1),
     Offset(-1, 0), Offset(-1, -1), Offset(0, -1), Offset(1, -1)]

  const BishopDirections: seq<Direction> := [Offset(1, 1), Offset(1, -1), Offset(-1, 1), Offset(-1, -1)]

  const RookDirections: seq<Direction> := [Offset(1, 0), Offset(-1, 0), Offset(0, 1), Offset(0, -1)]

  const QueenDirections: seq<Direction> := RookDirections + BishopDirections

  /** Knight and king moves: every on-board target of the first k offsets
      that is not held by the own colour, in the order of the offsets. */
  function JumpTargets(pl: Placement, fi: int, ri: int, c: Color, offs: seq<Offset>, k: nat): seq<Location>
    requires k <= |offs|
  {
    if k == 0 then []
    else
      var prev := JumpTargets(pl, fi, ri, c, offs, k - 1);
      var o := offs[k - 1];
      match CreateLocation(fi + o.df, ri + o.dr)
      case None => prev
      case Some(t) => if OccupiedByOwn(pl, t, c) then prev else prev + [t]
  }

  /** How many more steps of size d keep x on the board. */
  function StepsToEdge(x: int, d: int): nat {
    if d > 0 then (if x < 8 then 8 - x else 0)
    else if d < 0 then (if x >= 0 then x + 1 else 0)
    else 0
  }

  /** One sliding ray starting at (f, r): empty squares, then the first
      occupied square if it holds an opponent; stops at the edge. */
  function Ray(pl: Placement, c: Color, f: int, r: int, d: Direction): seq<Location>
    decreases StepsToEdge(f, d.df) + StepsToEdge(r, d.dr)
  {
    match CreateLocation(f, r)
    case None => []
    case Some(l) =>
      if OccupiedByOwn(pl, l, c) then []
      else if l in pl then [l]
      else [l] + Ray(pl, c, f + d.df, r + d.dr, d)
  }

  /** generateSlidingMoves: the rays from (fi, ri) in the first k directions,
      concatenated. */
  function SlidingMoves(pl: Placement, fi: int, ri: int, c: Color, dirs: seq<Direction>, k: nat): seq<Location>
    requires k <= |dirs|
  {
    if k == 0 then []
    else
      var d := dirs[k - 1];
      SlidingMoves(pl, fi, ri, c, dirs, k - 1) + Ray(pl, c, fi + d.df, ri + d.dr, d)
  }

  /** getMovableLocations for piece p standing at `from`. */
  function MovableLocations(pl: Placement, from: Location, p: Piece): seq<Location> {
    var fi, ri := FileIndex(from), RankIndex(from);
    match p.kind
    case Pawn => PawnMoves(pl, from, p.color)
    case Knight => JumpTargets(pl, fi, ri, p.color, KnightOffsets, 8)
    case Bishop => SlidingMoves(pl, fi, ri, p.color, BishopDirections, 4)
    case Rook => SlidingMoves(pl, fi, ri, p.color, RookDirections, 4)
    case Queen => SlidingMoves(pl, fi, ri, p.color, QueenDirections, 8)
    case King => JumpTargets(pl, fi, ri, p.color, KingOffsets, 8)
  }

  // ---------------------------------------------------------------- attacks

  /** The attack test's walk from (f, r) in steps of (sf, sr): every square
      before the target is on the board and empty. */
  predicate ClearPath(pl: Placement, f: int, r: int, tf: int, tr: int, sf: int, sr: int)
    requires sf != 0 || sr != 0 || (f == tf && r == tr)
    decreases StepsToEdge(f, sf) + StepsToEdge(r, sr)
  {
    if f == tf && r == tr then true
    else if !PathSquareEmpty(pl, f, r) then false
    else ClearPath(pl, f + sf, r + sr, tf, tr, sf, sr)
  }

  /** The bishop case of the attack test: the target differs from (fi, ri)
      by as many files as ranks, and the diagonal walk towards it succeeds. */
  predicate BishopAttacks(pl: Placement, fi: int, ri: int, tf: int, tr: int) {
    var df, dr := tf - fi, tr - ri;
    Abs(df) == Abs(dr) &&
    var sf := if df > 0 then 1 else -1;
    var sr := if dr > 0 then 1 else -1;
    ClearPath(pl, fi + sf, ri + sr, tf, tr, sf, sr)
  }

  /** The rook case of the attack test: same file or same rank, and the walk
      towards the target succeeds. */
  predicate RookAttacks(pl: Placement, fi: int, ri: int, tf: int, tr: int) {
    var df, dr := tf - fi, tr - ri;
    (df == 0 || dr == 0) &&
    ClearPath(pl, fi + Sign(df), ri + Sign(dr), tf, tr, Sign(df), Sign(dr))
  }

  /** canPieceAttackLocation for piece p standing at `from`.  The queen case
      asks the bishop and the rook cases for the same square. */
  predicate CanAttack(pl: Placement, from: Location, p: Piece, target: Location) {
    var fi, ri := FileIndex(from), RankIndex(from);
    var tf, tr := FileIndex(target), RankIndex(target);
    var df, dr := tf - fi, tr - ri;
    match p.kind
    case Pawn => dr == PawnDirection(p.color) && Abs(df) == 1
    case Knight => (Abs(df) == 1 && Abs(dr) == 2) || (Abs(df) == 2 && Abs(dr) == 1)
    case Bishop => BishopAttacks(pl, fi, ri, tf, tr)
    case Rook => RookAttacks(pl, fi, ri, tf, tr)
    case Queen =>
      (Abs(df) == Abs(dr) && BishopAttacks(pl, fi, ri, tf, tr))
      || ((df == 0 || dr == 0) && RookAttacks(pl, fi, ri, tf, tr))
    case King => Max(Abs(df), Abs(dr)) == 1
  }

  /** isLocationAttacked: some piece of colour c attacks the target. */
  predicate IsAttacked(pl: Placement, target: Location, c: Color) {
    exists l :: l in pl && pl[l].color == c && CanAttack(pl, l, pl[l], target)
  }
}
