/** Enums, records and the coordinate bijections of the reverse-chess engine
    (src/engine/types.ts). Colours, piece types, files and ranks are closed
    enumerations; a location is a (file, rank) pair, so an off-board location
    cannot be constructed. */
module Types {

  datatype Option<T> = None | Some(value: T) {
    function GetOr(default: T): T {
      match this
      case Some(v) => v
      case None => default
    }
  }

  datatype Color = White | Black

  /** The other colour. */
  function ReverseColor(c: Color): (r: Color)
    ensures r != c
  {
    if c == White then Black else White
  }

  lemma ReverseColorInvolution(c: Color)
    ensures ReverseColor(ReverseColor(c)) == c
    ensures ReverseColor(c) != c
  {
  }

  datatype PieceType = Pawn | Knight | Bishop | Rook | Queen | King

  type File = c: char | 'a' <= c <= 'h' witness 'a'
  type Rank = r: int | 1 <= r <= 8 witness 1

  const FilesInOrder: seq<File> := ['a', 'b', 'c', 'd', 'e', 'f', 'g', 'h']
  const RanksInOrder: seq<Rank> := [1, 2, 3, 4, 5, 6, 7, 8]

  /** Position of the file in a..h. */
  function FileToIndex(f: File): (i: int)
    ensures 0 <= i < 8
  {
    (f as int) - ('a' as int)
  }

  function IndexToFile(i: int): (r: Option<File>)
    ensures r.Some? <==> 0 <= i < 8
    ensures r.Some? ==> FileToIndex(r.value) == i
  {
    if 0 <= i < 8 then Some((('a' as int) + i) as char) else None
  }

  /** Position of the rank in 1..8. */
  function RankToIndex(r: Rank): (i: int)
    ensures 0 <= i < 8
  {
    r - 1
  }

  function IndexToRank(i: int): (r: Option<Rank>)
    ensures r.Some? <==> 0 <= i < 8
    ensures r.Some? ==> r.value == i + 1 && RankToIndex(r.value) == i
  {
    if 0 <= i < 8 then Some(i + 1) else None
  }

  lemma FileIndexBijection(f: File, i: int)
    ensures IndexToFile(FileToIndex(f)) == Some(f)
    ensures IndexToFile(i).Some? ==> FileToIndex(IndexToFile(i).value) == i
    ensures 0 <= i < 8 ==> IndexToFile(i) == Some(FilesInOrder[i])
    ensures 0 <= i < 8 ==> IndexToRank(i) == Some(RanksInOrder[i])
  {
  }

  datatype Location = Location(file: File, rank: Rank)

  /** The decimal digit of a rank. */
  function RankDigit(r: Rank): (c: char)
    ensures '1' <= c <= '8' && (c as int) - ('0' as int) == r
  {
    (('0' as int) + r) as char
  }

  /** `${file}${rank}`: the key of a location in the board's placement index. */
  function LocationToKey(l: Location): (k: string)
    ensures |k| == 2 && k[0] == l.file && k[1] == RankDigit(l.rank)
  {
    [l.file] + [RankDigit(l.rank)]
  }

  lemma LocationToKeyInjective(l1: Location, l2: Location)
    requires LocationToKey(l1) == LocationToKey(l2)
    ensures l1 == l2
  {
    assert LocationToKey(l1)[0] == LocationToKey(l2)[0];
    assert LocationToKey(l1)[1] == LocationToKey(l2)[1];
  }

  /** A piece is a colour and a type; where it stands is the key under which a
      board holds it. */
  datatype Piece = Piece(color: Color, kind: PieceType)

  /** One of the 64 squares: where it is, what stands on it, its colour. */
  datatype Square = Square(location: Location, piece: Option<Piece>, color: Color)

  function ColorName(c: Color): (s: string)
    ensures |s| == 5
  {
    if c == White then "white" else "black"
  }

  function TypeName(t: PieceType): (s: string)
    ensures |s| >= 4
  {
    match t
    case Pawn => "pawn"
    case Knight => "knight"
    case Bishop => "bishop"
    case Rook => "rook"
    case Queen => "queen"
    case King => "king"
  }

  /** `${color}_${type}`: the bucket key of a piece. */
  function PieceToKey(p: Piece): (k: string)
    ensures |k| >= 10 && k[..5] == ColorName(p.color) && k[5] == '_' && k[6..] == TypeName(p.kind)
  {
    ColorName(p.color) + "_" + TypeName(p.kind)
  }

  lemma TypeNameInjective(t1: PieceType, t2: PieceType)
    requires TypeName(t1) == TypeName(t2)
    ensures t1 == t2
  {
    var s1, s2 := TypeName(t1), TypeName(t2);
    assert s1[0] == s2[0] && s1[1] == s2[1] && |s1| == |s2|;
  }

  lemma PieceToKeyInjective(p: Piece, q: Piece)
    requires PieceToKey(p) == PieceToKey(q)
    ensures p == q
  {
    var kp, kq := PieceToKey(p), PieceToKey(q);
    assert kp[0] == kq[0];
    assert ColorName(p.color)[0] == kp[0] && ColorName(q.color)[0] == kq[0];
    assert kp[6..] == kq[6..];
    TypeNameInjective(p.kind, q.kind);
  }

  datatype GameState = Initial | InPlay | Finished

  /** A ply. `captured` and `promotion` are filled in by move generation and
      application and are what rollback relies on. */
  datatype Move = Move(from: Location, to: Location, piece: Piece,
                       captured: Option<Piece>, promotion: Option<PieceType>)

  datatype GameError = NotYourTurn | GameAlreadyStarted | GameNotStarted | GameFinished | InvalidMove

  datatype GameEndReason = Checkmate | Stalemate | LoneIsland | OnlyKingLeft

  datatype DifficultyLevel = Easy | Hard

  /** An evaluation score: a number that may also be plus or minus infinity. */
  datatype Score = NegInf | Fin(n: int) | PosInf {
    predicate Below(that: Score) {
      match (this, that)
      case (NegInf, NegInf) => false
      case (NegInf, _) => true
      case (Fin(a), Fin(b)) => a < b
      case (Fin(_), PosInf) => true
      case (_, _) => false
    }
    predicate AtLeast(that: Score) {
      !this.Below(that)
    }
  }

  lemma ScoreOrderTotal(a: Score, b: Score, c: Score)
    ensures !a.Below(a)
    ensures a.Below(b) ==> !b.Below(a)
    ensures a.Below(b) && b.Below(c) ==> a.Below(c)
    ensures a.Below(b) || b.Below(a) || a == b
  {
  }
}
