/** The bookkeeping of one node of searchBestMove (src/engine/aiPlayer.ts),
    separated from the board: after each child is searched, the best score,
    the alpha-beta window, the list of moves sharing the best score and the
    trust depth are updated. A tier of children is a fold of that update over
    the children searched, in order. */
module Minimax {
  import opened Types

  /** What a node keeps while it scans its children. */
  datatype Tally<M> = Tally(best: Score, alpha: Score, beta: Score, top: seq<M>, trust: real)

  /** A searched child: the move leading to it, its score and its minDepth. */
  datatype Child<M> = Child(move: M, score: Score, minDepth: real)

  /** a beats b for the side that maximises (isMax) or minimises. */
  predicate Better(isMax: bool, a: Score, b: Score) {
    if isMax then b.Below(a) else a.Below(b)
  }

  /** The window is closed: `alpha >= beta`, the cut-off test. */
  predicate Closed<M>(t: Tally<M>) {
    t.alpha.AtLeast(t.beta)
  }

  /** The new trust depth after a child searched drop plies shallower: when
      the child's depth plus drop is below the current trust, the trust
      falls to that bound rounded down. */
  function Trust(trust: real, minDepth: real, drop: nat): (r: real)
    ensures r <= trust && r <= minDepth + drop as real
    ensures trust <= minDepth + drop as real ==> r == trust
  {
    var bound := minDepth + drop as real;
    if trust > bound then bound.Floor as real else trust
  }

  /** One child scored: a better score replaces the best, restarts the list
      of best moves and moves the window's own edge to it; an equal score
      joins the list. */
  function Step<M>(isMax: bool, t: Tally<M>, c: Child<M>, drop: nat): Tally<M> {
    var trust := Trust(t.trust, c.minDepth, drop);
    if Better(isMax, c.score, t.best) then
      Tally(c.score, if isMax then c.score else t.alpha, if isMax then t.beta else c.score, [c.move], trust)
    else if c.score == t.best then
      t.(top := t.top + [c.move], trust := trust)
    else
      t.(trust := trust)
  }

  /** The tally after the children of trace, in order. */
  function Scan<M>(isMax: bool, t: Tally<M>, trace: seq<Child<M>>, drop: nat): Tally<M>
    decreases |trace|
  {
    if trace == [] then t
    else Step(isMax, Scan(isMax, t, trace[..|trace| - 1], drop), trace[|trace| - 1], drop)
  }

  lemma ScanAppend<M>(isMax: bool, t: Tally<M>, trace: seq<Child<M>>, c: Child<M>, drop: nat)
    ensures Scan(isMax, t, trace + [c], drop) == Step(isMax, Scan(isMax, t, trace, drop), c, drop)
  {
    assert (trace + [c])[..|trace|] == trace;
  }

  /** The window was open before each child of trace was searched. */
  predicate OpenAlong<M>(isMax: bool, t: Tally<M>, trace: seq<Child<M>>, drop: nat) {
    forall i :: 0 <= i < |trace| ==> !Closed(Scan(isMax, t, trace[..i], drop))
  }

  /** The children of trace are the first moves of moves, in order. */
  ghost predicate Follows<M>(trace: seq<Child<M>>, moves: seq<M>) {
    |trace| <= |moves| && forall i :: 0 <= i < |trace| ==> trace[i].move == moves[i]
  }

  /** Searching the next move while the window is open keeps both. */
  lemma TierAppend<M>(isMax: bool, t: Tally<M>, trace: seq<Child<M>>, c: Child<M>, drop: nat, moves: seq<M>)
    requires OpenAlong(isMax, t, trace, drop) && !Closed(Scan(isMax, t, trace, drop))
    requires Follows(trace, moves) && |trace| < |moves| && c.move == moves[|trace|]
    ensures OpenAlong(isMax, t, trace + [c], drop) && Follows(trace + [c], moves)
    ensures Scan(isMax, t, trace + [c], drop) == Step(isMax, Scan(isMax, t, trace, drop), c, drop)
  {
    var next := trace + [c];
    assert forall i :: 0 <= i < |trace| ==> next[..i] == trace[..i];
    assert next[..|trace|] == trace;
    ScanAppend(isMax, t, trace, c, drop);
  }

  // ------------------------------------------------------------ one step

  lemma BelowTransitive(a: Score, b: Score, c: Score)
    ensures a.Below(b) && b.Below(c) ==> a.Below(c)
    ensures !a.Below(b) && !b.Below(c) ==> !a.Below(c)
  {
  }

  /** After a step nothing seen so far beats the best score, which is the
      previous best or the child's score. */
  lemma StepBest<M>(isMax: bool, t: Tally<M>, c: Child<M>, drop: nat, s: Score)
    requires !Better(isMax, s, t.best)
    ensures var r := Step(isMax, t, c, drop);
            !Better(isMax, s, r.best) && !Better(isMax, c.score, r.best) && !Better(isMax, t.best, r.best)
            && (r.best == t.best || r.best == c.score)
  {
    var r := Step(isMax, t, c, drop);
    BelowTransitive(s, t.best, c.score);
    BelowTransitive(c.score, t.best, s);
    BelowTransitive(t.best, c.score, s);
    BelowTransitive(s, c.score, t.best);
  }

  // ------------------------------------------------------------ the fold

  /** No child of the tier and not the starting best beats the final best. */
  lemma {:induction false} ScanBest<M>(isMax: bool, t: Tally<M>, trace: seq<Child<M>>, drop: nat)
    ensures !Better(isMax, t.best, Scan(isMax, t, trace, drop).best)
    ensures forall i :: 0 <= i < |trace| ==> !Better(isMax, trace[i].score, Scan(isMax, t, trace, drop).best)
    decreases |trace|
  {
    if trace == [] {
      assert !t.best.Below(t.best);
    } else {
      var n := |trace| - 1;
      var init := trace[..n];
      var prev := Scan(isMax, t, init, drop);
      ScanBest(isMax, t, init, drop);
      StepBest(isMax, prev, trace[n], drop, t.best);
      forall i | 0 <= i < |trace| ensures !Better(isMax, trace[i].score, Scan(isMax, t, trace, drop).best) {
        if i < n {
          assert init[i] == trace[i];
          StepBest(isMax, prev, trace[n], drop, trace[i].score);
        }
      }
    }
  }

  /** The final best is the starting best or the score of a child. */
  lemma {:induction false} ScanAttained<M>(isMax: bool, t: Tally<M>, trace: seq<Child<M>>, drop: nat)
    ensures var r := Scan(isMax, t, trace, drop);
            r.best == t.best || exists i :: 0 <= i < |trace| && trace[i].score == r.best
    decreases |trace|
  {
    if trace != [] {
      var n := |trace| - 1;
      ScanAttained(isMax, t, trace[..n], drop);
      var r := Scan(isMax, t, trace, drop);
      if r.best != t.best && r.best != trace[n].score {
        var i :| 0 <= i < n && trace[..n][i].score == Scan(isMax, t, trace[..n], drop).best;
        assert trace[i].score == r.best;
      }
    }
  }

  /** Every move on the final best list is one of the starting list, kept
      because the best never changed, or a child that scored the final best. */
  lemma {:induction false} ScanTop<M>(isMax: bool, t: Tally<M>, trace: seq<Child<M>>, drop: nat)
    ensures var r := Scan(isMax, t, trace, drop);
            forall m :: m in r.top ==>
              (m in t.top && r.best == t.best)
              || exists i :: 0 <= i < |trace| && trace[i].move == m && trace[i].score == r.best
    decreases |trace|
  {
    if trace != [] {
      var n := |trace| - 1;
      var init := trace[..n];
      ScanTop(isMax, t, init, drop);
      var prev, r := Scan(isMax, t, init, drop), Scan(isMax, t, trace, drop);
      forall m | m in r.top
        ensures (m in t.top && r.best == t.best)
                || exists i :: 0 <= i < |trace| && trace[i].move == m && trace[i].score == r.best
      {
        if m != trace[n].move || trace[n].score != r.best {
          assert m in prev.top && r.best == prev.best;
          if !(m in t.top && prev.best == t.best) {
            var i :| 0 <= i < n && init[i].move == m && init[i].score == prev.best;
            assert trace[i] == init[i];
          }
        }
      }
    }
  }

  /** The maximiser only moves alpha and the minimiser only beta, and the
      edge that moved sits at the final best score. */
  lemma {:induction false} ScanWindow<M>(isMax: bool, t: Tally<M>, trace: seq<Child<M>>, drop: nat)
    ensures var r := Scan(isMax, t, trace, drop);
            if isMax then r.beta == t.beta && (r.alpha == t.alpha || r.alpha == r.best)
            else r.alpha == t.alpha && (r.beta == t.beta || r.beta == r.best)
    decreases |trace|
  {
    if trace != [] {
      ScanWindow(isMax, t, trace[..|trace| - 1], drop);
    }
  }

  /** The trust depth never rises, and ends no deeper than any child's
      minDepth plus the tier's drop. */
  lemma {:induction false} ScanTrust<M>(isMax: bool, t: Tally<M>, trace: seq<Child<M>>, drop: nat)
    ensures var r := Scan(isMax, t, trace, drop);
            r.trust <= t.trust && forall i :: 0 <= i < |trace| ==> r.trust <= trace[i].minDepth + drop as real
    decreases |trace|
  {
    if trace != [] {
      var n := |trace| - 1;
      ScanTrust(isMax, t, trace[..n], drop);
      assert forall i :: 0 <= i < n ==> trace[..n][i] == trace[i];
    }
  }

  // ------------------------------------------------------------ a node

  /** best is what a node settles on over its children: no child beats it,
      and it is the starting extreme (nothing searched, or nothing better
      found) or the score of some child. */
  ghost predicate BestOver<M>(isMax: bool, children: seq<Child<M>>, best: Score) {
    (forall i :: 0 <= i < |children| ==> !Better(isMax, children[i].score, best))
    && (best == (if isMax then NegInf else PosInf) || exists i :: 0 <= i < |children| && children[i].score == best)
  }

  /** The node's best score over its children: the only move (when there
      is one) replaces the starting extreme, then the two tiers are folded
      in. No child beats the final best, and the final best is the
      starting extreme or some child's score. */
  lemma NodeBest<M>(isMax: bool, t0: Tally<M>, t1: Tally<M>, only: seq<Child<M>>,
                   trace1: seq<Child<M>>, trace2: seq<Child<M>>)
    requires t0.best == (if isMax then NegInf else PosInf)
    requires |only| <= 1
    requires only == [] ==> t1 == t0
    requires only != [] ==> t1.best == only[0].score
    ensures BestOver(isMax, only + trace1 + trace2, Scan(isMax, Scan(isMax, t1, trace1, 1), trace2, 2).best)
  {
    var t2 := Scan(isMax, t1, trace1, 1);
    var r := Scan(isMax, t2, trace2, 2);
    var children := only + trace1 + trace2;
    ScanBest(isMax, t1, trace1, 1);
    ScanBest(isMax, t2, trace2, 2);
    ScanAttained(isMax, t1, trace1, 1);
    ScanAttained(isMax, t2, trace2, 2);
    forall i | 0 <= i < |children| ensures !Better(isMax, children[i].score, r.best) {
      var k := i - |only|;
      if i < |only| {
        BelowTransitive(children[i].score, t2.best, r.best);
        BelowTransitive(r.best, t2.best, children[i].score);
      } else if k < |trace1| {
        assert children[i] == trace1[k];
        BelowTransitive(children[i].score, t2.best, r.best);
        BelowTransitive(r.best, t2.best, children[i].score);
      } else {
        assert children[i] == trace2[k - |trace1|];
      }
    }
    if r.best != t0.best {
      if r.best == t2.best {
        if t2.best != t1.best {
          var k :| 0 <= k < |trace1| && trace1[k].score == t2.best;
          assert children[|only| + k] == trace1[k];
        } else {
          assert only != [] && children[0] == only[0];
        }
      } else {
        var k :| 0 <= k < |trace2| && trace2[k].score == r.best;
        assert children[|only| + |trace1| + k] == trace2[k];
      }
    }
  }

  /** Every move of top is one of the children that scored best. */
  ghost predicate TopAttained<M>(top: seq<M>, children: seq<Child<M>>, best: Score) {
    forall m :: m in top ==> exists i :: 0 <= i < |children| && children[i].move == m && children[i].score == best
  }

  /** The node's list of best moves: it starts empty, the only move (when
      there is one) becomes the whole list, then the two tiers are folded in.
      Every move left on the list is a child that scored the final best. */
  lemma NodeTop<M>(isMax: bool, t0: Tally<M>, t1: Tally<M>, only: seq<Child<M>>,
                  trace1: seq<Child<M>>, trace2: seq<Child<M>>)
    requires t0.top == [] && |only| <= 1
    requires only == [] ==> t1 == t0
    requires only != [] ==> t1.best == only[0].score && t1.top == [only[0].move]
    ensures var r := Scan(isMax, Scan(isMax, t1, trace1, 1), trace2, 2);
            TopAttained(r.top, only + trace1 + trace2, r.best)
  {
    var t2 := Scan(isMax, t1, trace1, 1);
    var r := Scan(isMax, t2, trace2, 2);
    var children := only + trace1 + trace2;
    ScanTop(isMax, t1, trace1, 1);
    ScanTop(isMax, t2, trace2, 2);
    forall m | m in r.top
      ensures exists i :: 0 <= i < |children| && children[i].move == m && children[i].score == r.best
    {
      if m in t2.top && r.best == t2.best {
        if m in t1.top && t2.best == t1.best {
          assert only != [] && children[0] == only[0];
        } else {
          var k :| 0 <= k < |trace1| && trace1[k].move == m && trace1[k].score == t2.best;
          assert children[|only| + k] == trace1[k];
        }
      } else {
        var k :| 0 <= k < |trace2| && trace2[k].move == m && trace2[k].score == r.best;
        assert children[|only| + |trace1| + k] == trace2[k];
      }
    }
  }

  // ------------------------------------------------------------ scores

  function Negate(s: Score): Score {
    match s
    case NegInf => PosInf
    case Fin(n) => Fin(-n)
    case PosInf => NegInf
  }

  /** The score of an ended position from the root's side: infinite for the
      root player's win, minus infinite for the opponent's, zero without a
      winner. */
  function TerminalScore(winner: Option<Color>, root: Color): (r: Score)
    ensures winner == Some(root) ==> r == PosInf
    ensures winner == Some(ReverseColor(root)) ==> r == NegInf
    ensures winner.None? ==> r == Fin(0)
  {
    if winner == Some(root) then PosInf
    else if winner == Some(ReverseColor(root)) then NegInf
    else Fin(0)
  }

  /** Seen from the other side, an ended position scores the negation. */
  lemma TerminalScoreSymmetric(winner: Option<Color>, root: Color)
    ensures TerminalScore(winner, ReverseColor(root)) == Negate(TerminalScore(winner, root))
  {
    ReverseColorInvolution(root);
  }

  /** Negation reverses the order of scores. */
  lemma NegateReverses(a: Score, b: Score)
    ensures a.Below(b) <==> Negate(b).Below(Negate(a))
    ensures Negate(Negate(a)) == a
  {
  }
}
