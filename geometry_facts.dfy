/** What the movement and attack rules of engine/board.ts mean: sliding rays
    and the attack walk described square by square, the pawn rules, and the
    agreement between generated moves and the attack test. */
module GeometryFacts {
  import opened Types
  import opened Geometry

  /** The target is reached from (f, r) by some number of steps d. */
  ghost predicate OnLine(f: int, r: int, d: Direction, t: Location) {
    exists k: nat :: FileIndex(t) == f + Scale(k, d.df) && RankIndex(t) == r + Scale(k, d.dr)
  }

  /** The k squares visited from (f, r) in steps (sf, sr) are on the board and empty. */
  ghost predicate EmptySteps(pl: Placement, f: int, r: int, sf: int, sr: int, k: int) {
    forall j :: 0 <= j < k ==> PathSquareEmpty(pl, f + Scale(j, sf), r + Scale(j, sr))
  }

  lemma EmptyStepsSplit(pl: Placement, f: int, r: int, sf: int, sr: int, k: int)
    requires -1 <= sf <= 1 && -1 <= sr <= 1 && k > 0
    ensures EmptySteps(pl, f, r, sf, sr, k) <==>
            PathSquareEmpty(pl, f, r) && EmptySteps(pl, f + sf, r + sr, sf, sr, k - 1)
  {
    if EmptySteps(pl, f, r, sf, sr, k) {
      forall j | 0 <= j < k - 1
        ensures PathSquareEmpty(pl, f + sf + Scale(j, sf), r + sr + Scale(j, sr))
      {
        assert f + sf + Scale(j, sf) == f + Scale(j + 1, sf);
        assert r + sr + Scale(j, sr) == r + Scale(j + 1, sr);
      }
      assert f + Scale(0, sf) == f && r + Scale(0, sr) == r;
    }
    if PathSquareEmpty(pl, f, r) && EmptySteps(pl, f + sf, r + sr, sf, sr, k - 1) {
      forall j | 0 <= j < k
        ensures PathSquareEmpty(pl, f + Scale(j, sf), r + Scale(j, sr))
      {
        if j > 0 {
          assert f + Scale(j, sf) == f + sf + Scale(j - 1, sf);
          assert r + Scale(j, sr) == r + sr + Scale(j - 1, sr);
        }
      }
    }
  }

  /** The attack walk over k steps succeeds exactly when each of the k squares
      it visits before the target is on the board and empty. */
  lemma {:induction false} ClearPathSteps(pl: Placement, f: int, r: int, tf: int, tr: int, sf: int, sr: int, k: nat)
    requires -1 <= sf <= 1 && -1 <= sr <= 1 && (sf != 0 || sr != 0)
    requires tf == f + Scale(k, sf) && tr == r + Scale(k, sr)
    ensures ClearPath(pl, f, r, tf, tr, sf, sr) <==> EmptySteps(pl, f, r, sf, sr, k)
    decreases k, 1
  {
    if k > 0 {
      ClearPathStepsNext(pl, f, r, tf, tr, sf, sr, k - 1);
    }
  }

  /** The induction step of ClearPathSteps, for j + 1 squares. */
  lemma {:induction false} ClearPathStepsNext(pl: Placement, f: int, r: int, tf: int, tr: int, sf: int, sr: int, j: nat)
    requires -1 <= sf <= 1 && -1 <= sr <= 1 && (sf != 0 || sr != 0)
    requires tf == f + Scale(j + 1, sf) && tr == r + Scale(j + 1, sr)
    ensures ClearPath(pl, f, r, tf, tr, sf, sr) <==> EmptySteps(pl, f, r, sf, sr, j + 1)
    decreases j + 1, 0
  {
    assert !(f == tf && r == tr);
    assert ClearPath(pl, f, r, tf, tr, sf, sr)
       <==> PathSquareEmpty(pl, f, r) && ClearPath(pl, f + sf, r + sr, tf, tr, sf, sr);
    ClearPathSteps(pl, f + sf, r + sr, tf, tr, sf, sr, j);
    EmptyStepsSplit(pl, f, r, sf, sr, j + 1);
  }
  /** Walking away from the target never reaches it: the walk fails. */
  lemma {:induction false} ClearPathAway(pl: Placement, f: int, r: int, tf: int, tr: int, sf: int, sr: int)
    requires sf != 0
    requires (sf > 0 ==> f > tf) && (sf < 0 ==> f < tf)
    ensures !ClearPath(pl, f, r, tf, tr, sf, sr)
    decreases StepsToEdge(f, sf) + StepsToEdge(r, sr)
  {
    if PathSquareEmpty(pl, f, r) {
      ClearPathAway(pl, f + sf, r + sr, tf, tr, sf, sr);
    }
  }

  /** Past the first square, a ray continues from the next square, and the
      first square is empty. */
  lemma RayTail(pl: Placement, c: Color, f: int, r: int, d: Direction, t: Location)
    requires t in Ray(pl, c, f, r, d)
    ensures CreateLocation(f, r).Some?
    ensures t != CreateLocation(f, r).value ==>
              PathSquareEmpty(pl, f, r) && t in Ray(pl, c, f + d.df, r + d.dr, d)
  {
  }

  /** A square of the ray is k steps along it, not held by the own colour, and
      every square before it is empty. */
  lemma {:induction false} RayMemberReached(pl: Placement, c: Color, f: int, r: int, d: Direction, t: Location) returns (k: nat)
    requires t in Ray(pl, c, f, r, d)
    ensures FileIndex(t) == f + Scale(k, d.df) && RankIndex(t) == r + Scale(k, d.dr)
    ensures !OccupiedByOwn(pl, t, c)
    ensures ClearPath(pl, f, r, FileIndex(t), RankIndex(t), d.df, d.dr)
    decreases StepsToEdge(f, d.df) + StepsToEdge(r, d.dr)
  {
    RayTail(pl, c, f, r, d, t);
    var l := CreateLocation(f, r).value;
    if t == l {
      k := 0;
    } else {
      var k' := RayMemberReached(pl, c, f + d.df, r + d.dr, d, t);
      k := k' + 1;
      RayMemberStep(pl, f, r, d, l, t, k');
    }
  }

  /** One step back along the ray: a target k' + 1 steps from (f, r), past
      an empty first square l. */
  lemma RayMemberStep(pl: Placement, f: int, r: int, d: Direction, l: Location, t: Location, k': nat)
    requires FileIndex(l) == f && RankIndex(l) == r && t != l && PathSquareEmpty(pl, f, r)
    requires FileIndex(t) == f + d.df + Scale(k', d.df) && RankIndex(t) == r + d.dr + Scale(k', d.dr)
    requires ClearPath(pl, f + d.df, r + d.dr, FileIndex(t), RankIndex(t), d.df, d.dr)
    ensures FileIndex(t) == f + Scale(k' + 1, d.df) && RankIndex(t) == r + Scale(k' + 1, d.dr)
    ensures ClearPath(pl, f, r, FileIndex(t), RankIndex(t), d.df, d.dr)
  {
    var tf, tr := FileIndex(t), RankIndex(t);
    if tf == f && tr == r {
      LocationByIndices(l, t);
    }
    assert ClearPath(pl, f, r, tf, tr, d.df, d.dr)
       <==> PathSquareEmpty(pl, f, r) && ClearPath(pl, f + d.df, r + d.dr, tf, tr, d.df, d.dr);
  }

  /** A ray starts with its first square unless the own colour holds it, and
      runs on past it when it is empty. */
  lemma RayCons(pl: Placement, c: Color, f: int, r: int, d: Direction, t: Location)
    requires CreateLocation(f, r).Some?
    ensures t == CreateLocation(f, r).value && !OccupiedByOwn(pl, t, c) ==> t in Ray(pl, c, f, r, d)
    ensures CreateLocation(f, r).value !in pl && t in Ray(pl, c, f + d.df, r + d.dr, d) ==>
              t in Ray(pl, c, f, r, d)
  {
  }

  lemma {:induction false} RayReachesMember(pl: Placement, c: Color, f: int, r: int, d: Direction, t: Location, k: nat)
    requires FileIndex(t) == f + Scale(k, d.df) && RankIndex(t) == r + Scale(k, d.dr)
    requires !OccupiedByOwn(pl, t, c)
    requires ClearPath(pl, f, r, FileIndex(t), RankIndex(t), d.df, d.dr)
    ensures t in Ray(pl, c, f, r, d)
    decreases k
  {
    if k == 0 {
      CreateLocationOfIndices(t);
      RayCons(pl, c, f, r, d, t);
    } else {
      assert !(f == FileIndex(t) && r == RankIndex(t));
      assert PathSquareEmpty(pl, f, r);
      RayReachesMember(pl, c, f + d.df, r + d.dr, d, t, k - 1);
      RayCons(pl, c, f, r, d, t);
    }
  }

  /** Each sliding ray holds exactly the squares on its line, not held by the
      own colour, before which every square is empty: the empty squares up to
      the first occupied one, and that one only if it holds an opponent. */
  lemma RayMembership(pl: Placement, c: Color, f: int, r: int, d: Direction, t: Location)
    ensures t in Ray(pl, c, f, r, d) <==>
            !OccupiedByOwn(pl, t, c) && OnLine(f, r, d, t)
            && ClearPath(pl, f, r, FileIndex(t), RankIndex(t), d.df, d.dr)
  {
    if t in Ray(pl, c, f, r, d) {
      var k := RayMemberReached(pl, c, f, r, d, t);
    }
    if !OccupiedByOwn(pl, t, c) && OnLine(f, r, d, t) && ClearPath(pl, f, r, FileIndex(t), RankIndex(t), d.df, d.dr) {
      var k: nat :| FileIndex(t) == f + Scale(k, d.df) && RankIndex(t) == r + Scale(k, d.dr);
      RayReachesMember(pl, c, f, r, d, t, k);
    }
  }
  /** A sliding move lies on the ray of one of the first k directions. */
  lemma {:induction false} SlidingMoveOnRay(pl: Placement, fi: int, ri: int, c: Color, dirs: seq<Direction>, k: nat, t: Location)
    returns (i: nat)
    requires k <= |dirs| && t in SlidingMoves(pl, fi, ri, c, dirs, k)
    ensures i < k && t in Ray(pl, c, fi + dirs[i].df, ri + dirs[i].dr, dirs[i])
    decreases k, 1
  {
    assert k != 0;
    i := SlidingMoveOnRayNext(pl, fi, ri, c, dirs, k - 1, t);
  }

  /** The same for the first j + 1 directions, by induction on j. */
  lemma {:induction false} SlidingMoveOnRayNext(pl: Placement, fi: int, ri: int, c: Color, dirs: seq<Direction>, j: nat, t: Location)
    returns (i: nat)
    requires j < |dirs| && t in SlidingMoves(pl, fi, ri, c, dirs, j + 1)
    ensures i <= j && t in Ray(pl, c, fi + dirs[i].df, ri + dirs[i].dr, dirs[i])
    decreases j + 1, 0
  {
    var d := dirs[j];
    if t in Ray(pl, c, fi + d.df, ri + d.dr, d) {
      i := j;
    } else {
      i := SlidingMoveOnRay(pl, fi, ri, c, dirs, j, t);
    }
  }

  /** Every square of the ray of one of the first k directions is a sliding move. */
  lemma {:induction false} RayInSlidingMoves(pl: Placement, fi: int, ri: int, c: Color, dirs: seq<Direction>, k: nat, t: Location, i: nat)
    requires i < k <= |dirs| && t in Ray(pl, c, fi + dirs[i].df, ri + dirs[i].dr, dirs[i])
    ensures t in SlidingMoves(pl, fi, ri, c, dirs, k)
    decreases k, 1
  {
    RayInSlidingMovesNext(pl, fi, ri, c, dirs, k - 1, k, t, i);
  }

  /** The same for the first k = j + 1 directions, by induction on j. */
  lemma {:induction false} RayInSlidingMovesNext(pl: Placement, fi: int, ri: int, c: Color, dirs: seq<Direction>,
                                                 j: nat, k: nat, t: Location, i: nat)
    requires k == j + 1 && i <= j < |dirs| && t in Ray(pl, c, fi + dirs[i].df, ri + dirs[i].dr, dirs[i])
    ensures t in SlidingMoves(pl, fi, ri, c, dirs, k)
    decreases k, 0
  {
    if i < j {
      RayInSlidingMoves(pl, fi, ri, c, dirs, j, t, i);
    }
  }

  lemma {:induction false} JumpMembership(pl: Placement, fi: int, ri: int, c: Color, offs: seq<Offset>, k: nat, t: Location)
    requires k <= |offs|
    ensures t in JumpTargets(pl, fi, ri, c, offs, k) <==>
            !OccupiedByOwn(pl, t, c) && Offset(FileIndex(t) - fi, RankIndex(t) - ri) in offs[..k]
    decreases k
  {
    if k > 0 {
      JumpMembership(pl, fi, ri, c, offs, k - 1, t);
      assert offs[..k] == offs[..k - 1] + [offs[k - 1]];
      var o := offs[k - 1];
      match CreateLocation(fi + o.df, ri + o.dr)
      case None =>
      case Some(l) =>
        if o == Offset(FileIndex(t) - fi, RankIndex(t) - ri) {
          LocationByIndices(l, t);
        }
    }
  }

  lemma {:induction false} PawnCapturesMembership(pl: Placement, fi: int, ri: int, c: Color, dfs: seq<int>, k: nat, t: Location)
    requires k <= |dfs|
    ensures t in PawnCaptures(pl, fi, ri, c, dfs, k) <==>
            OccupiedByOpponent(pl, t, c) && RankIndex(t) == ri && FileIndex(t) - fi in dfs[..k]
    decreases k
  {
    if k > 0 {
      PawnCapturesMembership(pl, fi, ri, c, dfs, k - 1, t);
      assert dfs[..k] == dfs[..k - 1] + [dfs[k - 1]];
      match CreateLocation(fi + dfs[k - 1], ri)
      case None =>
      case Some(l) =>
        if FileIndex(t) - fi == dfs[k - 1] && RankIndex(t) == ri {
          LocationByIndices(l, t);
        }
    }
  }

  /** Pawn moves: a capture is an attacked square holding an opponent; a step
      forward goes to an empty square one rank ahead, or two ranks ahead from
      the start rank when the square in between is empty as well. */
  lemma PawnMovesCharacterised(pl: Placement, from: Location, c: Color, t: Location)
    ensures t in PawnMoves(pl, from, c) <==>
            (OccupiedByOpponent(pl, t, c) && CanAttack(pl, from, Piece(c, Pawn), t))
            || (FileIndex(t) == FileIndex(from) && t !in pl
                && (RankIndex(t) == RankIndex(from) + PawnDirection(c)
                    || (from.rank == StartRank(c)
                        && RankIndex(t) == RankIndex(from) + 2 * PawnDirection(c)
                        && PathSquareEmpty(pl, FileIndex(from), RankIndex(from) + PawnDirection(c)))))
  {
    var fi, ri, dir := FileIndex(from), RankIndex(from), PawnDirection(c);
    PawnCapturesMembership(pl, fi, ri + dir, c, PawnCaptureOffsets, 2, t);
    assert PawnCaptureOffsets[..2] == PawnCaptureOffsets;
    assert FileIndex(t) - fi in PawnCaptureOffsets <==> Abs(FileIndex(t) - fi) == 1;
    var one := CreateLocation(fi, ri + dir);
    var two := CreateLocation(fi, ri + 2 * dir);
    if one.Some? && FileIndex(t) == fi && RankIndex(t) == ri + dir {
      LocationByIndices(one.value, t);
    }
    if two.Some? && FileIndex(t) == fi && RankIndex(t) == ri + 2 * dir {
      LocationByIndices(two.value, t);
    }
    if FileIndex(t) == fi && RankIndex(t) == ri + 2 * dir {
      assert two.Some?;
    }
  }

  /** The two-step move exists only from the start rank (2 for White, 7 for
      Black) with both squares ahead empty; a diagonal target always holds an
      opponent. */
  lemma PawnRules(pl: Placement, from: Location, c: Color, t: Location)
    requires t in PawnMoves(pl, from, c)
    ensures t !in pl || OccupiedByOpponent(pl, t, c)
    ensures RankIndex(t) == RankIndex(from) + 2 * PawnDirection(c) ==>
              from.rank == (if c == White then 2 else 7) && t !in pl
              && PathSquareEmpty(pl, FileIndex(from), RankIndex(from) + PawnDirection(c))
    ensures FileIndex(t) != FileIndex(from) ==> OccupiedByOpponent(pl, t, c)
  {
    PawnMovesCharacterised(pl, from, c, t);
  }

  // ------------------------------------------------------------ attack tests

  /** The diagonal walk from a bishop's own square heads away from it. */
  lemma BishopAttackNotOwnSquare(pl: Placement, fi: int, ri: int)
    ensures !BishopAttacks(pl, fi, ri, fi, ri)
  {
    ClearPathAway(pl, fi - 1, ri - 1, fi, ri, -1, -1);
  }

  lemma BishopAttackDiagonal(pl: Placement, fi: int, ri: int, tf: int, tr: int)
    requires Abs(tf - fi) == Abs(tr - ri) && tf != fi
    ensures BishopAttacks(pl, fi, ri, tf, tr) <==>
            EmptySteps(pl, fi + Sign(tf - fi), ri + Sign(tr - ri), Sign(tf - fi), Sign(tr - ri), Abs(tf - fi) - 1)
  {
    var sf, sr := Sign(tf - fi), Sign(tr - ri);
    assert sf == (if tf - fi > 0 then 1 else -1) && sr == (if tr - ri > 0 then 1 else -1);
    assert tf == fi + sf + Scale(Abs(tf - fi) - 1, sf) && tr == ri + sr + Scale(Abs(tf - fi) - 1, sr);
    ClearPathSteps(pl, fi + sf, ri + sr, tf, tr, sf, sr, Abs(tf - fi) - 1);
  }

  /** A bishop attacks exactly along a diagonal whose intermediate squares
      are all empty; never its own square. */
  lemma BishopAttackGeometry(pl: Placement, fi: int, ri: int, tf: int, tr: int)
    ensures BishopAttacks(pl, fi, ri, tf, tr) <==>
            Abs(tf - fi) == Abs(tr - ri) && tf != fi
            && EmptySteps(pl, fi + Sign(tf - fi), ri + Sign(tr - ri), Sign(tf - fi), Sign(tr - ri), Abs(tf - fi) - 1)
  {
    if Abs(tf - fi) == Abs(tr - ri) {
      if tf == fi {
        BishopAttackNotOwnSquare(pl, fi, ri);
      } else {
        BishopAttackDiagonal(pl, fi, ri, tf, tr);
      }
    }
  }

  /** A rook attacks exactly along a rank or file whose intermediate squares
      are all empty; the walk also accepts the rook's own square. */
  lemma RookAttackGeometry(pl: Placement, fi: int, ri: int, tf: int, tr: int)
    ensures RookAttacks(pl, fi, ri, tf, tr) <==>
            (tf == fi || tr == ri)
            && EmptySteps(pl, fi + Sign(tf - fi), ri + Sign(tr - ri), Sign(tf - fi), Sign(tr - ri), Abs(tf - fi) + Abs(tr - ri) - 1)
  {
    var df, dr := tf - fi, tr - ri;
    if (df == 0 || dr == 0) && (df != 0 || dr != 0) {
      var sf, sr := Sign(df), Sign(dr);
      var k := Abs(df) + Abs(dr) - 1;
      assert tf == fi + sf + Scale(k, sf) && tr == ri + sr + Scale(k, sr);
      ClearPathSteps(pl, fi + sf, ri + sr, tf, tr, sf, sr, k);
    }
  }

  // ------------------------------------------------- moves versus attacks

  lemma KnightOffsetsGeometry(df: int, dr: int)
    ensures Offset(df, dr) in KnightOffsets <==>
            (Abs(df) == 1 && Abs(dr) == 2) || (Abs(df) == 2 && Abs(dr) == 1)
  {
    if (Abs(df) == 1 && Abs(dr) == 2) || (Abs(df) == 2 && Abs(dr) == 1) {
      var i := if df == 1 && dr == 2 then 0 else if df == 2 && dr == 1 then 1
               else if df == 2 && dr == -1 then 2 else if df == 1 && dr == -2 then 3
               else if df == -1 && dr == -2 then 4 else if df == -2 && dr == -1 then 5
               else if df == -2 && dr == 1 then 6 else 7;
      assert KnightOffsets[i] == Offset(df, dr);
    }
  }

  lemma KingOffsetsGeometry(df: int, dr: int)
    ensures Offset(df, dr) in KingOffsets <==> Max(Abs(df), Abs(dr)) == 1
  {
    if Max(Abs(df), Abs(dr)) == 1 {
      var i := if df == 1 && dr == 0 then 0 else if df == 1 && dr == 1 then 1
               else if df == 0 && dr == 1 then 2 else if df == -1 && dr == 1 then 3
               else if df == -1 && dr == 0 then 4 else if df == -1 && dr == -1 then 5
               else if df == 0 && dr == -1 then 6 else 7;
      assert KingOffsets[i] == Offset(df, dr);
    }
  }

  function DiagonalOf(i: int): (d: Direction)
    requires 0 <= i < 4
    ensures d == BishopDirections[i] && Abs(d.df) == 1 && Abs(d.dr) == 1
  {
    if i == 0 then Offset(1, 1) else if i == 1 then Offset(1, -1)
    else if i == 2 then Offset(-1, 1) else Offset(-1, -1)
  }

  /** The square k + 1 diagonal steps from (fi, ri) is on a diagonal of it,
      in the signs of the step. */
  lemma DiagonalArith(fi: int, ri: int, tf: int, tr: int, d: Direction, k: nat)
    requires Abs(d.df) == 1 && Abs(d.dr) == 1
    requires tf == fi + d.df + Scale(k, d.df) && tr == ri + d.dr + Scale(k, d.dr)
    ensures Abs(tf - fi) == Abs(tr - ri) == k + 1
    ensures (if tf - fi > 0 then 1 else -1) == d.df && (if tr - ri > 0 then 1 else -1) == d.dr
  {
  }

  /** The other way round: a square on a diagonal of (fi, ri) is reached by
      Abs(tf - fi) steps in the signs of the differences. */
  lemma DiagonalArithBack(fi: int, ri: int, tf: int, tr: int)
    requires Abs(tf - fi) == Abs(tr - ri) && tf != fi
    ensures Sign(tf - fi) == (if tf - fi > 0 then 1 else -1) && Sign(tr - ri) == (if tr - ri > 0 then 1 else -1)
    ensures Abs(Sign(tf - fi)) == 1 && Abs(Sign(tr - ri)) == 1
    ensures tf == fi + Sign(tf - fi) + Scale(Abs(tf - fi) - 1, Sign(tf - fi))
    ensures tr == ri + Sign(tr - ri) + Scale(Abs(tf - fi) - 1, Sign(tr - ri))
  {
  }

  /** The square k + 1 straight steps from (fi, ri) is on its rank or file. */
  lemma StraightArith(fi: int, ri: int, tf: int, tr: int, d: Direction, k: nat)
    requires d.df == 0 || d.dr == 0
    requires tf == fi + d.df + Scale(k, d.df) && tr == ri + d.dr + Scale(k, d.dr)
    ensures tf - fi == 0 || tr - ri == 0
    ensures tf != fi || tr != ri
    ensures Sign(tf - fi) == d.df && Sign(tr - ri) == d.dr
  {
  }

  lemma StraightArithBack(fi: int, ri: int, tf: int, tr: int)
    requires tf - fi == 0 || tr - ri == 0
    requires tf != fi || tr != ri
    ensures UnitStep(Offset(Sign(tf - fi), Sign(tr - ri)))
    ensures Abs(tf - fi) + Abs(tr - ri) - 1 >= 0
    ensures tf == fi + Sign(tf - fi) + Scale(Abs(tf - fi) + Abs(tr - ri) - 1, Sign(tf - fi))
    ensures tr == ri + Sign(tr - ri) + Scale(Abs(tf - fi) + Abs(tr - ri) - 1, Sign(tr - ri))
  {
  }

  /** A square on a diagonal ray from `from` is attacked by a bishop there. */
  lemma BishopRayGeometry(pl: Placement, from: Location, c: Color, t: Location, d: Direction)
    requires Abs(d.df) == 1 && Abs(d.dr) == 1
    requires t in Ray(pl, c, FileIndex(from) + d.df, RankIndex(from) + d.dr, d)
    ensures t != from && !OccupiedByOwn(pl, t, c)
    ensures BishopAttacks(pl, FileIndex(from), RankIndex(from), FileIndex(t), RankIndex(t))
  {
    var fi, ri := FileIndex(from), RankIndex(from);
    var k := RayMemberReached(pl, c, fi + d.df, ri + d.dr, d, t);
    DiagonalArith(fi, ri, FileIndex(t), RankIndex(t), d, k);
  }

  /** A square a bishop attacks, other than its own, lies on one of its rays. */
  lemma BishopAttackOnRay(pl: Placement, from: Location, c: Color, t: Location) returns (d: Direction)
    requires t != from && !OccupiedByOwn(pl, t, c)
    requires BishopAttacks(pl, FileIndex(from), RankIndex(from), FileIndex(t), RankIndex(t))
    ensures Abs(d.df) == 1 && Abs(d.dr) == 1
    ensures t in Ray(pl, c, FileIndex(from) + d.df, RankIndex(from) + d.dr, d)
  {
    var fi, ri, tf, tr := FileIndex(from), RankIndex(from), FileIndex(t), RankIndex(t);
    if tf == fi {
      LocationByIndices(from, t);
    }
    DiagonalArithBack(fi, ri, tf, tr);
    d := Offset(Sign(tf - fi), Sign(tr - ri));
    RayReachesMember(pl, c, fi + d.df, ri + d.dr, d, t, Abs(tf - fi) - 1);
  }

  /** A square on a straight ray from `from` is attacked by a rook there. */
  lemma RookRayGeometry(pl: Placement, from: Location, c: Color, t: Location, d: Direction)
    requires d.df == 0 || d.dr == 0
    requires t in Ray(pl, c, FileIndex(from) + d.df, RankIndex(from) + d.dr, d)
    ensures t != from && !OccupiedByOwn(pl, t, c)
    ensures RookAttacks(pl, FileIndex(from), RankIndex(from), FileIndex(t), RankIndex(t))
  {
    var fi, ri := FileIndex(from), RankIndex(from);
    var k := RayMemberReached(pl, c, fi + d.df, ri + d.dr, d, t);
    var tf, tr := FileIndex(t), RankIndex(t);
    StraightArith(fi, ri, tf, tr, d, k);
    assert ClearPath(pl, fi + Sign(tf - fi), ri + Sign(tr - ri), tf, tr, Sign(tf - fi), Sign(tr - ri));
  }

  /** A square a rook attacks, other than its own, lies on one of its rays. */
  lemma RookAttackOnRay(pl: Placement, from: Location, c: Color, t: Location) returns (d: Direction)
    requires t != from && !OccupiedByOwn(pl, t, c)
    requires RookAttacks(pl, FileIndex(from), RankIndex(from), FileIndex(t), RankIndex(t))
    ensures d.df == 0 || d.dr == 0
    ensures t in Ray(pl, c, FileIndex(from) + d.df, RankIndex(from) + d.dr, d)
  {
    var fi, ri, tf, tr := FileIndex(from), RankIndex(from), FileIndex(t), RankIndex(t);
    if tf == fi && tr == ri {
      LocationByIndices(from, t);
    }
    StraightArithBack(fi, ri, tf, tr);
    d := Offset(Sign(tf - fi), Sign(tr - ri));
    RayReachesMember(pl, c, fi + d.df, ri + d.dr, d, t, Abs(tf - fi) + Abs(tr - ri) - 1);
  }

  /** Every unit step is a rook direction, a bishop direction, or neither. */
  lemma DirectionIndex(dirs: seq<Direction>, d: Direction) returns (i: nat)
    requires dirs == RookDirections || dirs == BishopDirections
    requires dirs == RookDirections ==> d.df == 0 || d.dr == 0
    requires dirs == BishopDirections ==> Abs(d.df) == 1 && Abs(d.dr) == 1
    ensures i < 4 && dirs[i] == d
  {
    i := if d == dirs[0] then 0 else if d == dirs[1] then 1 else if d == dirs[2] then 2 else 3;
  }

  lemma BishopMovesSound(pl: Placement, from: Location, c: Color, t: Location, dirs: seq<Direction>, n: nat)
    requires dirs == BishopDirections && n == 4
    requires t in SlidingMoves(pl, FileIndex(from), RankIndex(from), c, dirs, n)
    ensures t != from && !OccupiedByOwn(pl, t, c)
    ensures BishopAttacks(pl, FileIndex(from), RankIndex(from), FileIndex(t), RankIndex(t))
  {
    var i := SlidingMoveOnRay(pl, FileIndex(from), RankIndex(from), c, dirs, n, t);
    BishopRayGeometry(pl, from, c, t, DiagonalOf(i));
  }

  lemma BishopMovesComplete(pl: Placement, from: Location, c: Color, t: Location, dirs: seq<Direction>, n: nat)
    requires dirs == BishopDirections && n == 4
    requires t != from && !OccupiedByOwn(pl, t, c)
    requires BishopAttacks(pl, FileIndex(from), RankIndex(from), FileIndex(t), RankIndex(t))
    ensures t in SlidingMoves(pl, FileIndex(from), RankIndex(from), c, dirs, n)
  {
    var d := BishopAttackOnRay(pl, from, c, t);
    var i := DirectionIndex(dirs, d);
    RayInSlidingMoves(pl, FileIndex(from), RankIndex(from), c, dirs, n, t, i);
  }

  /** The bishop's moves are the squares it attacks, other than its own and
      those held by its own colour.  The direction table is a parameter so
      that the recursion over it is not unrolled on the constant. */
  lemma BishopMovesOn(pl: Placement, from: Location, c: Color, t: Location, dirs: seq<Direction>, n: nat)
    requires dirs == BishopDirections && n == 4
    ensures t in SlidingMoves(pl, FileIndex(from), RankIndex(from), c, dirs, n) <==>
            t != from && !OccupiedByOwn(pl, t, c)
            && BishopAttacks(pl, FileIndex(from), RankIndex(from), FileIndex(t), RankIndex(t))
  {
    if t in SlidingMoves(pl, FileIndex(from), RankIndex(from), c, dirs, n) {
      BishopMovesSound(pl, from, c, t, dirs, n);
    }
    if t != from && !OccupiedByOwn(pl, t, c) && BishopAttacks(pl, FileIndex(from), RankIndex(from), FileIndex(t), RankIndex(t)) {
      BishopMovesComplete(pl, from, c, t, dirs, n);
    }
  }

  lemma RookMovesSound(pl: Placement, from: Location, c: Color, t: Location, dirs: seq<Direction>, n: nat)
    requires dirs == RookDirections && n == 4
    requires t in SlidingMoves(pl, FileIndex(from), RankIndex(from), c, dirs, n)
    ensures t != from && !OccupiedByOwn(pl, t, c)
    ensures RookAttacks(pl, FileIndex(from), RankIndex(from), FileIndex(t), RankIndex(t))
  {
    var i := SlidingMoveOnRay(pl, FileIndex(from), RankIndex(from), c, dirs, n, t);
    assert dirs[i].df == 0 || dirs[i].dr == 0;
    RookRayGeometry(pl, from, c, t, dirs[i]);
  }

  lemma RookMovesComplete(pl: Placement, from: Location, c: Color, t: Location, dirs: seq<Direction>, n: nat)
    requires dirs == RookDirections && n == 4
    requires t != from && !OccupiedByOwn(pl, t, c)
    requires RookAttacks(pl, FileIndex(from), RankIndex(from), FileIndex(t), RankIndex(t))
    ensures t in SlidingMoves(pl, FileIndex(from), RankIndex(from), c, dirs, n)
  {
    var d := RookAttackOnRay(pl, from, c, t);
    var i := DirectionIndex(dirs, d);
    RayInSlidingMoves(pl, FileIndex(from), RankIndex(from), c, dirs, n, t, i);
  }

  /** The rook's moves are the squares it attacks, other than its own and
      those held by its own colour. */
  lemma RookMovesOn(pl: Placement, from: Location, c: Color, t: Location, dirs: seq<Direction>, n: nat)
    requires dirs == RookDirections && n == 4
    ensures t in SlidingMoves(pl, FileIndex(from), RankIndex(from), c, dirs, n) <==>
            t != from && !OccupiedByOwn(pl, t, c)
            && RookAttacks(pl, FileIndex(from), RankIndex(from), FileIndex(t), RankIndex(t))
  {
    if t in SlidingMoves(pl, FileIndex(from), RankIndex(from), c, dirs, n) {
      RookMovesSound(pl, from, c, t, dirs, n);
    }
    if t != from && !OccupiedByOwn(pl, t, c) && RookAttacks(pl, FileIndex(from), RankIndex(from), FileIndex(t), RankIndex(t)) {
      RookMovesComplete(pl, from, c, t, dirs, n);
    }
  }

  /** The queen's rays are the rook's followed by the bishop's. */
  lemma QueenDirectionsSplit(i: nat)
    requires i < 8
    ensures i < 4 ==> QueenDirections[i] == RookDirections[i]
    ensures 4 <= i ==> QueenDirections[i] == BishopDirections[i - 4]
  {
  }

  lemma QueenSlideIsRookOrBishop(pl: Placement, fi: int, ri: int, c: Color, t: Location,
                                 q: seq<Direction>, rk: seq<Direction>, b: seq<Direction>, n: nat, m: nat)
    requires q == QueenDirections && rk == RookDirections && b == BishopDirections && n == 8 && m == 4
    requires t in SlidingMoves(pl, fi, ri, c, q, n)
    ensures t in SlidingMoves(pl, fi, ri, c, rk, m) || t in SlidingMoves(pl, fi, ri, c, b, m)
  {
    var i := SlidingMoveOnRay(pl, fi, ri, c, q, n, t);
    QueenDirectionsSplit(i);
    if i < 4 {
      RayInSlidingMoves(pl, fi, ri, c, rk, m, t, i);
    } else {
      RayInSlidingMoves(pl, fi, ri, c, b, m, t, i - 4);
    }
  }

  lemma RookSlideIsQueenSlide(pl: Placement, fi: int, ri: int, c: Color, t: Location,
                              q: seq<Direction>, rk: seq<Direction>, n: nat, m: nat)
    requires q == QueenDirections && rk == RookDirections && n == 8 && m == 4
    requires t in SlidingMoves(pl, fi, ri, c, rk, m)
    ensures t in SlidingMoves(pl, fi, ri, c, q, n)
  {
    var i := SlidingMoveOnRay(pl, fi, ri, c, rk, m, t);
    QueenDirectionsSplit(i);
    RayInSlidingMoves(pl, fi, ri, c, q, n, t, i);
  }

  lemma BishopSlideIsQueenSlide(pl: Placement, fi: int, ri: int, c: Color, t: Location,
                                q: seq<Direction>, b: seq<Direction>, n: nat, m: nat)
    requires q == QueenDirections && b == BishopDirections && n == 8 && m == 4
    requires t in SlidingMoves(pl, fi, ri, c, b, m)
    ensures t in SlidingMoves(pl, fi, ri, c, q, n)
  {
    var i := SlidingMoveOnRay(pl, fi, ri, c, b, m, t);
    QueenDirectionsSplit(i + 4);
    RayInSlidingMoves(pl, fi, ri, c, q, n, t, i + 4);
  }

  lemma QueenSlides(pl: Placement, fi: int, ri: int, c: Color, t: Location,
                    q: seq<Direction>, rk: seq<Direction>, b: seq<Direction>, n: nat, m: nat)
    requires q == QueenDirections && rk == RookDirections && b == BishopDirections && n == 8 && m == 4
    ensures t in SlidingMoves(pl, fi, ri, c, q, n) <==>
            t in SlidingMoves(pl, fi, ri, c, rk, m) || t in SlidingMoves(pl, fi, ri, c, b, m)
  {
    if t in SlidingMoves(pl, fi, ri, c, q, n) {
      QueenSlideIsRookOrBishop(pl, fi, ri, c, t, q, rk, b, n, m);
    }
    if t in SlidingMoves(pl, fi, ri, c, rk, m) {
      RookSlideIsQueenSlide(pl, fi, ri, c, t, q, rk, n, m);
    }
    if t in SlidingMoves(pl, fi, ri, c, b, m) {
      BishopSlideIsQueenSlide(pl, fi, ri, c, t, q, b, n, m);
    }
  }

  lemma QueenMoves(pl: Placement, from: Location, c: Color, t: Location)
    ensures t in SlidingMoves(pl, FileIndex(from), RankIndex(from), c, QueenDirections, 8) <==>
            t != from && !OccupiedByOwn(pl, t, c) && CanAttack(pl, from, Piece(c, Queen), t)
  {
    var fi, ri := FileIndex(from), RankIndex(from);
    QueenSlides(pl, fi, ri, c, t, QueenDirections, RookDirections, BishopDirections, 8, 4);
    BishopMovesOn(pl, from, c, t, BishopDirections, 4);
    RookMovesOn(pl, from, c, t, RookDirections, 4);
  }

  /** Apart from pawns, a piece moves to exactly the squares it attacks,
      other than its own square and squares held by its own colour. */
  lemma MovesAreUnblockedAttacks(pl: Placement, from: Location, p: Piece, t: Location)
    requires p.kind != Pawn
    ensures t in MovableLocations(pl, from, p) <==>
            t != from && !OccupiedByOwn(pl, t, p.color) && CanAttack(pl, from, p, t)
  {
    var fi, ri := FileIndex(from), RankIndex(from);
    var df, dr := FileIndex(t) - fi, RankIndex(t) - ri;
    match p.kind
    case Knight =>
      JumpMembership(pl, fi, ri, p.color, KnightOffsets, 8, t);
      assert KnightOffsets[..8] == KnightOffsets;
      KnightOffsetsGeometry(df, dr);
    case King =>
      JumpMembership(pl, fi, ri, p.color, KingOffsets, 8, t);
      assert KingOffsets[..8] == KingOffsets;
      KingOffsetsGeometry(df, dr);
    case Bishop => BishopMovesOn(pl, from, p.color, t, BishopDirections, 4);
    case Rook => RookMovesOn(pl, from, p.color, t, RookDirections, 4);
    case Queen => QueenMoves(pl, from, p.color, t);
  }

  /** No generated move stays put or lands on the mover's own colour. */
  lemma MovesAvoidOwnPieces(pl: Placement, from: Location, p: Piece, t: Location)
    requires t in MovableLocations(pl, from, p)
    ensures t != from && !OccupiedByOwn(pl, t, p.color)
  {
    if p.kind == Pawn {
      PawnMovesCharacterised(pl, from, p.color, t);
    } else {
      MovesAreUnblockedAttacks(pl, from, p, t);
    }
  }
}
