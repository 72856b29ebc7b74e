/**
  What the emitted steps say about how far the knob was turned.

  A trace that starts at the detent and never changes both pins at once is a walk around a circle
  of four positions. Unrolled, it is a sequence of moves of plus or minus one; cut at the visits
  to the detent, it is a sequence of excursions. The decoder counts exactly the excursions that
  are four moves in one direction.
*/
module Winding {
  import opened Quadrature
  import opened Seqs

  /** The position after `n` forward moves from the detent. */
  function At(n: int): Sample {
    var k := n % 4;
    if k == 0 then DETENT else if k == 1 then TWO else if k == 2 then ZERO else ONE
  }

  /** The move from one position to a neighbour or to itself. */
  function Move(p: Sample, q: Sample): int {
    if p == q then 0
    else if (p, q) in {(DETENT, TWO), (TWO, ZERO), (ZERO, ONE), (ONE, DETENT)} then 1
    else -1
  }

  /** No two successive samples differ in both pins. */
  ghost predicate Continuous(t: seq<Sample>) {
    forall i | 0 < i < |t| :: !TwoBits(t[i - 1], t[i])
  }

  ghost predicate FromDetent(t: seq<Sample>) {
    t != [] && t[0] == DETENT && Continuous(t)
  }

  /** The moves of a walk, without the polls that found the knob at rest. */
  function Moves(t: seq<Sample>): seq<int> {
    if |t| <= 1 then [] else
      var d := Move(t[|t| - 2], t[|t| - 1]);
      var p := Moves(t[..|t| - 1]);
      if d == 0 then p else p + [d]
  }

  function Sum(ms: seq<int>): int {
    if ms == [] then 0 else Sum(ms[..|ms| - 1]) + ms[|ms| - 1]
  }

  /** How far along the unrolled circle the knob has come; four to the revolution. */
  function Unrolled(t: seq<Sample>): int {
    Sum(Moves(t))
  }

  predicate One(d: int) {
    d == 1 || d == -1
  }

  ghost predicate Unit(ms: seq<int>) {
    forall i | 0 <= i < |ms| :: One(ms[i])
  }

  /** A walk cut at the detent: the excursions that came back, and the one still under way. */
  datatype Walk = Walk(closed: seq<seq<int>>, open: seq<int>)

  /** The excursion under way after one more move: it ends when it is back at the detent. */
  function NextOpen(o: seq<int>, d: int): seq<int> {
    if Sum(o + [d]) % 4 == 0 then [] else o + [d]
  }

  function Extend(w: Walk, d: int): Walk {
    var o := w.open + [d];
    Walk(if Sum(o) % 4 == 0 then w.closed + [o] else w.closed, NextOpen(w.open, d))
  }

  function Cut(ms: seq<int>): Walk {
    if ms == [] then Walk([], []) else Extend(Cut(ms[..|ms| - 1]), ms[|ms| - 1])
  }

  const TURN: seq<int> := [1, 1, 1, 1]
  const BACK_TURN: seq<int> := [-1, -1, -1, -1]

  /** What an excursion counts for the decoder. */
  function Clean(x: seq<int>): int {
    if x == TURN then 1 else if x == BACK_TURN then -1 else 0
  }

  function CleanTotal(xs: seq<seq<int>>): int {
    if xs == [] then 0 else CleanTotal(xs[..|xs| - 1]) + Clean(xs[|xs| - 1])
  }

  /** Revolutions made by a list of excursions. */
  function NetTotal(xs: seq<seq<int>>): int {
    if xs == [] then 0 else NetTotal(xs[..|xs| - 1]) + Sum(xs[|xs| - 1]) / 4
  }

  function LongExcursions(xs: seq<seq<int>>): nat {
    if xs == [] then 0 else LongExcursions(xs[..|xs| - 1]) + (if |xs[|xs| - 1]| >= 6 then 1 else 0)
  }

  function Concat(xs: seq<seq<int>>): seq<int> {
    if xs == [] then [] else Concat(xs[..|xs| - 1]) + xs[|xs| - 1]
  }

  // ---------------------------------------------------------------------------------------------
  // The cut is the cut at the detent.
  // ---------------------------------------------------------------------------------------------

  /** A walk from the detent that is not at it again after 1, ..., last - 1 moves. */
  ghost predicate Away(x: seq<int>, last: int) {
    forall k | 0 < k < last && k <= |x| :: Sum(x[..k]) % 4 != 0
  }

  ghost predicate IsExcursion(x: seq<int>) {
    x != [] && Sum(x) % 4 == 0 && Unit(x) && Away(x, |x|)
  }

  ghost predicate IsOpen(x: seq<int>) {
    Unit(x) && Away(x, |x| + 1) && (x == [] <==> Sum(x) % 4 == 0)
  }

  lemma {:induction false} SnocSum(ms: seq<int>, d: int)
    ensures Sum(ms + [d]) == Sum(ms) + d
  {
    TakeSnoc(ms, d);
  }

  lemma {:induction false} PartialSums(ms: seq<int>, i: nat)
    requires i < |ms|
    ensures Sum(ms[..i + 1]) == Sum(ms[..i]) + ms[i]
  {
    assert ms[..i + 1][..i] == ms[..i];
  }

  lemma {:induction false} SnocCut(ms: seq<int>, d: int)
    ensures Cut(ms + [d]) == Extend(Cut(ms), d)
  {
    TakeSnoc(ms, d);
  }

  lemma {:induction false} SnocOpen(x: seq<int>, d: int)
    requires IsOpen(x) && (d == 1 || d == -1)
    ensures Sum(x + [d]) == Sum(x) + d
    ensures if Sum(x + [d]) % 4 == 0 then IsExcursion(x + [d]) else IsOpen(x + [d])
  {
    SnocSum(x, d);
    var y := x + [d];
    forall k | 0 < k <= |x| ensures Sum(y[..k]) % 4 != 0 {
      assert y[..k] == x[..k];
    }
    assert y[..|y|] == y;
  }

  ghost predicate AllExcursions(xs: seq<seq<int>>) {
    forall i | 0 <= i < |xs| :: IsExcursion(xs[i])
  }

  lemma {:induction false} SnocTotals(xs: seq<seq<int>>, x: seq<int>)
    ensures NetTotal(xs + [x]) == NetTotal(xs) + Sum(x) / 4
    ensures CleanTotal(xs + [x]) == CleanTotal(xs) + Clean(x)
    ensures Concat(xs + [x]) == Concat(xs) + x
  {
    TakeSnoc(xs, x);
  }

  lemma {:induction false} PartitionStep(w: Walk, d: int)
    ensures Concat(Extend(w, d).closed) + Extend(w, d).open == (Concat(w.closed) + w.open) + [d]
  {
    var o := w.open + [d];
    SnocTotals(w.closed, o);
    Assoc(Concat(w.closed), w.open, [d]);
    Empty(Concat(w.closed) + o);
  }

  /** The pieces make up the walk. */
  lemma {:induction false} CutIsPartition(ms: seq<int>)
    ensures Concat(Cut(ms).closed) + Cut(ms).open == ms
  {
    if ms != [] {
      CutIsPartition(ms[..|ms| - 1]);
      PartitionStep(Cut(ms[..|ms| - 1]), ms[|ms| - 1]);
      SplitLast(ms);
    }
  }

  /** A cut is right if every closed piece runs from detent to detent, and between, and in the open
      piece, there is no visit. */
  ghost predicate Right(w: Walk, sum: int) {
    AllExcursions(w.closed) && IsOpen(w.open) && sum == 4 * NetTotal(w.closed) + Sum(w.open)
  }

  lemma {:induction false} RightStep(w: Walk, sum: int, d: int)
    requires Right(w, sum) && One(d)
    ensures Right(Extend(w, d), sum + d)
  {
    var o := w.open + [d];
    SnocOpen(w.open, d);
    if Sum(o) % 4 == 0 {
      SnocTotals(w.closed, o);
      EmptyOpen(Extend(w, d).open);
      assert AllExcursions(w.closed + [o]);
      assert Sum(o) == 4 * (Sum(o) / 4);
    }
  }

  lemma {:induction false} EmptyOpen(x: seq<int>)
    requires |x| == 0
    ensures IsOpen(x) && Sum(x) == 0
  {
  }

  lemma {:induction false} CutAtDetents(ms: seq<int>)
    requires Unit(ms)
    ensures Right(Cut(ms), Sum(ms))
  {
    if ms == [] {
      EmptyOpen(Cut(ms).open);
    } else {
      CutAtDetents(ms[..|ms| - 1]);
      RightStep(Cut(ms[..|ms| - 1]), Sum(ms[..|ms| - 1]), ms[|ms| - 1]);
    }
  }

  lemma {:induction false} RightAtDetent(w: Walk, sum: int)
    requires Right(w, sum)
    ensures w.open == [] <==> sum % 4 == 0
    ensures w.open == [] ==> sum == 4 * NetTotal(w.closed)
  {
    assert sum % 4 == Sum(w.open) % 4;
  }

  // ---------------------------------------------------------------------------------------------
  // Edges of a continuous walk.
  // ---------------------------------------------------------------------------------------------

  function EdgeAt(n: int, d: int): Edge {
    Edge(At(n), At(n + d))
  }

  /** The edges of a walk given by its moves. */
  function EdgesAlong(ms: seq<int>): seq<Edge> {
    if ms == [] then [] else
      var p := ms[..|ms| - 1];
      EdgesAlong(p) + [EdgeAt(Sum(p), ms[|ms| - 1])]
  }

  lemma {:induction false} SnocAlong(ms: seq<int>, d: int)
    ensures EdgesAlong(ms + [d]) == EdgesAlong(ms) + [EdgeAt(Sum(ms), d)]
  {
    assert (ms + [d])[..|ms|] == ms;
  }

  lemma MoveIsStep(n: int, q: Sample)
    requires !TwoBits(At(n), q)
    ensures q == At(n + Move(At(n), q))
    ensures Move(At(n), q) == 0 <==> !OneBit(At(n), q)
    ensures Move(At(n), q) in {-1, 0, 1}
  {
  }

  lemma {:induction false} SnocMoves(t: seq<Sample>, s: Sample)
    requires t != []
    ensures Moves(t + [s]) == var d := Move(LastSample(t), s); if d == 0 then Moves(t) else Moves(t) + [d]
  {
    assert (t + [s])[..|t|] == t;
  }

  lemma {:induction false} FromDetentPrefix(t: seq<Sample>, s: Sample)
    requires FromDetent(t + [s]) && t != []
    ensures FromDetent(t) && !TwoBits(LastSample(t), s)
  {
    var u := t + [s];
    assert u[0] == t[0] && !TwoBits(u[|t| - 1], u[|t|]);
    forall i | 0 < i < |t| ensures !TwoBits(t[i - 1], t[i]) {
      assert u[i - 1] == t[i - 1] && u[i] == t[i];
    }
  }

  /** What the decoder and the moves say about a walk, and agree on. */
  ghost predicate Follows(t: seq<Sample>) {
    && Unit(Moves(t))
    && EdgesOf(t) == EdgesAlong(Moves(t))
    && LastSample(t) == At(Unrolled(t))
  }

  lemma EdgeOfMove(n: int, s: Sample)
    requires OneBit(At(n), s)
    ensures var d := Move(At(n), s);
            One(d) && Step(At(n), s) == [EdgeAt(n, d)] && s == At(n + d)
  {
    MoveIsStep(n, s);
  }

  lemma UnitSnoc(ms: seq<int>, d: int)
    requires Unit(ms) && One(d)
    ensures Unit(ms + [d])
  {
  }

  lemma {:induction false} FollowsMove(p: seq<Sample>, s: Sample)
    requires p != [] && Follows(p) && OneBit(LastSample(p), s)
    ensures Follows(p + [s])
  {
    var ms, n, d := Moves(p), Unrolled(p), Move(LastSample(p), s);
    EdgeOfMove(n, s);
    UnitSnoc(ms, d);
    SnocEdges(p, s);
    SnocMoves(p, s);
    SnocAlong(ms, d);
    SnocSum(ms, d);
    FollowsIs(p + [s], ms + [d], n + d);
  }

  lemma {:induction false} FollowsIs(t: seq<Sample>, ms: seq<int>, n: int)
    requires Moves(t) == ms && Unit(ms) && Sum(ms) == n && LastSample(t) == At(n) && EdgesOf(t) == EdgesAlong(ms)
    ensures Follows(t)
  {
  }

  lemma {:induction false} FollowsRest(p: seq<Sample>, s: Sample)
    requires p != [] && Follows(p) && s == LastSample(p)
    ensures Follows(p + [s])
  {
    SnocEdges(p, s);
    SnocMoves(p, s);
    Empty(EdgesOf(p));
  }

  /** On a continuous walk from the detent the decoder accepts precisely the moves. */
  lemma {:induction false} WalkEdges(t: seq<Sample>)
    requires FromDetent(t)
    ensures Follows(t)
  {
    if |t| == 1 {
      assert EdgesOf(t[..0]) == [] && LastSample(t[..0]) == ZERO;
    } else {
      var p, s := t[..|t| - 1], t[|t| - 1];
      assert t == p + [s];
      FromDetentPrefix(p, s);
      WalkEdges(p);
      if s == LastSample(p) { FollowsRest(p, s); } else { FollowsMove(p, s); }
    }
  }

  // ---------------------------------------------------------------------------------------------
  // A match is a clean excursion.
  // ---------------------------------------------------------------------------------------------

  /** What the move that ends a walk counts for: it counts if it closes a clean excursion. */
  function LastCounts(ms: seq<int>): int
    requires ms != []
  {
    Clean(Cut(ms[..|ms| - 1]).open + [ms[|ms| - 1]])
  }

  lemma {:induction false} MatchOfFour(es: seq<Edge>, f: seq<Edge>)
    requires |f| == 4
    ensures Match(es + f) == if f == FORWARD then 1 else if f == REVERSE then -1 else 0
  {
    assert (es + f)[|es|..] == f;
  }

  lemma TurnOfMoves(n: int, w: int, x: int, y: int, z: int)
    requires One(w) && One(x) && One(y) && One(z)
    ensures var f := [EdgeAt(n, w), EdgeAt(n + w, x), EdgeAt(n + w + x, y), EdgeAt(n + w + x + y, z)];
            && (f == FORWARD <==> n % 4 == 0 && w == x == y == z == 1)
            && (f == REVERSE <==> n % 4 == 0 && w == x == y == z == -1)
  {
  }

  lemma {:induction false} MatchAlong(b: seq<int>, w: int, x: int, y: int, z: int)
    requires One(w) && One(x) && One(y) && One(z)
    ensures Match(EdgesAlong(b + [w] + [x] + [y] + [z])) ==
            if Sum(b) % 4 != 0 then 0 else Clean([w, x, y, z])
  {
    var n := Sum(b);
    SnocAlong(b, w);
    SnocAlong(b + [w], x);
    SnocAlong(b + [w] + [x], y);
    SnocAlong(b + [w] + [x] + [y], z);
    SnocSum(b, w);
    SnocSum(b + [w], x);
    SnocSum(b + [w] + [x], y);
    var f := [EdgeAt(n, w), EdgeAt(n + w, x), EdgeAt(n + w + x, y), EdgeAt(n + w + x + y, z)];
    assert EdgesAlong(b + [w] + [x] + [y] + [z]) == EdgesAlong(b) + f;
    MatchOfFour(EdgesAlong(b), f);
    TurnOfMoves(n, w, x, y, z);
  }

  lemma {:induction false} NextFromNone(o: seq<int>, w: int)
    requires |o| == 0 && One(w)
    ensures NextOpen(o, w) == [w]
  {
    SnocSum(o, w);
    Empty([w]);
  }

  lemma {:induction false} NextFromOne(o: seq<int>, x: int)
    requires |o| == 1 && One(o[0]) && One(x)
    ensures NextOpen(o, x) == if o[0] == x then [x, x] else []
  {
    SnocSum(o, x);
    assert o[..0] == [];
    assert Sum(o) == o[0];
  }

  lemma {:induction false} NextFromTwo(o: seq<int>, y: int)
    requires |o| == 2 && One(o[0]) && o[1] == o[0] && One(y)
    ensures NextOpen(o, y) == [o[0], o[0], y]
  {
    SnocSum(o, y);
    PartialSums(o, 0);
    PartialSums(o, 1);
    TakeAll(o);
  }

  /** From the detent, an excursion is three moves old only if it went the same way at first. */
  lemma {:induction false} OpenFromDetent(o: seq<int>, w: int, x: int, y: int)
    requires |o| == 0 && One(w) && One(x) && One(y)
    ensures NextOpen(NextOpen(NextOpen(o, w), x), y) == if w == x then [w, x, y] else [y]
  {
    NextFromNone(o, w);
    NextFromOne([w], x);
    if w == x {
      NextFromTwo([w, x], y);
    } else {
      NextFromNone(NextOpen([w], x), y);
    }
  }

  /** Away from the detent, three moves later no excursion is exactly three moves old. */
  lemma {:induction false} OpenElsewhere(o: seq<int>, w: int, x: int, y: int)
    requires o != []
    ensures |NextOpen(NextOpen(NextOpen(o, w), x), y)| != 3
  {
    NextLength(o, w);
    NextLength(NextOpen(o, w), x);
    NextLength(NextOpen(NextOpen(o, w), x), y);
  }

  lemma {:induction false} NextLength(o: seq<int>, d: int)
    ensures |NextOpen(o, d)| in {0, |o| + 1}
  {
  }

  lemma {:induction false} FewMoves(ms: seq<int>)
    ensures |Cut(ms).open| <= |ms|
    ensures |EdgesAlong(ms)| == |ms|
  {
    if ms != [] { FewMoves(ms[..|ms| - 1]); }
  }

  lemma CleanNeedsFour(x: seq<int>)
    requires |x| != 4
    ensures Clean(x) == 0
  {
  }

  lemma {:induction false} CleanAfterFour(o: seq<int>, w: int, x: int, y: int, z: int)
    requires One(w) && One(x) && One(y) && One(z)
    ensures Clean(NextOpen(NextOpen(NextOpen(o, w), x), y) + [z]) ==
            if o == [] then Clean([w, x, y, z]) else 0
  {
    var r := NextOpen(NextOpen(NextOpen(o, w), x), y);
    if o == [] {
      OpenFromDetent(o, w, x, y);
      if w == x {
        assert [w, x, y] + [z] == [w, x, y, z];
      } else {
        CleanNeedsFour([y] + [z]);
        assert [w, x, y, z][0] != [w, x, y, z][1];
      }
    } else {
      OpenElsewhere(o, w, x, y);
      CleanNeedsFour(r + [z]);
    }
  }

  lemma {:induction false} OpenAfterThree(b: seq<int>, w: int, x: int, y: int)
    ensures Cut(b + [w] + [x] + [y]).open == NextOpen(NextOpen(NextOpen(Cut(b).open, w), x), y)
  {
    SnocCut(b, w);
    SnocCut(b + [w], x);
    SnocCut(b + [w] + [x], y);
  }

  lemma {:induction false} MatchAfterFour(b: seq<int>, w: int, x: int, y: int, z: int)
    requires Unit(b) && One(w) && One(x) && One(y) && One(z)
    ensures Match(EdgesAlong(b + [w] + [x] + [y] + [z])) == Clean(Cut(b + [w] + [x] + [y]).open + [z])
  {
    MatchAlong(b, w, x, y, z);
    CutAtDetents(b);
    RightAtDetent(Cut(b), Sum(b));
    CleanAfterFour(Cut(b).open, w, x, y, z);
    OpenAfterThree(b, w, x, y);
  }

  /** The decoder matches at a move exactly when that move ends a clean excursion. */
  lemma {:induction false} MatchIsCleanExcursion(ms: seq<int>)
    requires Unit(ms) && ms != []
    ensures Match(EdgesAlong(ms)) == LastCounts(ms)
  {
    var n := |ms|;
    if n >= 4 {
      var b, w, x, y, z := ms[..n - 4], ms[n - 4], ms[n - 3], ms[n - 2], ms[n - 1];
      assert ms[..n - 1] == b + [w] + [x] + [y];
      assert ms == b + [w] + [x] + [y] + [z];
      MatchAfterFour(b, w, x, y, z);
    } else {
      FewMoves(ms);
      FewMoves(ms[..n - 1]);
    }
  }

  lemma {:induction false} CleanCloses(x: seq<int>)
    requires Clean(x) != 0
    ensures Sum(x) == 4 * Clean(x)
  {
    PartialSums(x, 0);
    PartialSums(x, 1);
    PartialSums(x, 2);
    PartialSums(x, 3);
    TakeAll(x);
  }

  /** The sum of the emitted diffs is the number of clean excursions, forward minus reverse. */
  lemma {:induction false} EmittedIsClean(t: seq<Sample>)
    requires FromDetent(t)
    ensures Sum(Diffs(t)) == CleanTotal(Cut(Moves(t)).closed)
  {
    if |t| == 1 {
      assert LastSample(t[..0]) == ZERO && DiffAt(t) == 0;
      assert Diffs(t) == Diffs(t[..0]) + [0];
      SnocSum(Diffs(t[..0]), 0);
    } else {
      var p, s := t[..|t| - 1], t[|t| - 1];
      assert t == p + [s];
      FromDetentPrefix(p, s);
      EmittedIsClean(p);
      SnocEdges(p, s);
      SnocSum(Diffs(p), DiffAt(t));
      SnocMoves(p, s);
      WalkEdges(p);
      MoveIsStep(Unrolled(p), s);
      if OneBit(LastSample(p), s) { EmittedAtMove(p, s); }
    }
  }

  lemma {:induction false} TotalStep(w: Walk, d: int)
    ensures CleanTotal(Extend(w, d).closed) == CleanTotal(w.closed) + Clean(w.open + [d])
  {
    var o := w.open + [d];
    if Sum(o) % 4 == 0 {
      SnocTotals(w.closed, o);
    } else if Clean(o) != 0 {
      CleanCloses(o);
    }
  }

  lemma {:induction false} CleanTotalGrows(ms: seq<int>, d: int)
    ensures CleanTotal(Cut(ms + [d]).closed) == CleanTotal(Cut(ms).closed) + Clean(Cut(ms).open + [d])
  {
    SnocCut(ms, d);
    TotalStep(Cut(ms), d);
  }

  lemma {:induction false} EmittedAtMove(p: seq<Sample>, s: Sample)
    requires FromDetent(p + [s]) && p != [] && OneBit(LastSample(p), s)
    ensures CleanTotal(Cut(Moves(p + [s])).closed) == CleanTotal(Cut(Moves(p)).closed) + DiffAt(p + [s])
  {
    var d := Move(LastSample(p), s);
    var ms := Moves(p);
    SnocEdges(p, s);
    SnocMoves(p, s);
    WalkEdges(p + [s]);
    MatchIsCleanExcursion(ms + [d]);
    assert (ms + [d])[..|ms|] == ms;
    CleanTotalGrows(ms, d);
  }

  // ---------------------------------------------------------------------------------------------
  // Winding against emitted steps.
  // ---------------------------------------------------------------------------------------------

  lemma {:induction false} StaysInside(x: seq<int>, k: nat)
    requires Unit(x) && Away(x, |x|) && k < |x|
    ensures -4 < Sum(x[..k]) < 4
  {
    if k != 0 {
      StaysInside(x, k - 1);
      PartialSums(x, k - 1);
    }
  }

  lemma {:induction false} SumBounds(x: seq<int>)
    requires Unit(x)
    ensures -|x| <= Sum(x) <= |x| && (Sum(x) + |x|) % 2 == 0
    ensures Sum(x) == |x| ==> forall i | 0 <= i < |x| :: x[i] == 1
    ensures Sum(x) == -|x| ==> forall i | 0 <= i < |x| :: x[i] == -1
  {
    if x != [] { SumBounds(x[..|x| - 1]); }
  }

  /** An excursion makes at most one revolution, and only a long one can be miscounted. */
  lemma {:induction false} NetOfExcursion(x: seq<int>)
    requires IsExcursion(x)
    ensures Sum(x) / 4 in {-1, 0, 1} && 4 * (Sum(x) / 4) == Sum(x)
    ensures |x| % 2 == 0
    ensures Sum(x) / 4 != Clean(x) ==> |x| >= 6 && Clean(x) == 0
  {
    StaysInside(x, |x| - 1);
    PartialSums(x, |x| - 1);
    assert x[..|x|] == x;
    SumBounds(x);
    if Clean(x) != 0 { CleanCloses(x); }
    if |x| == 4 && Sum(x) == 4 { assert x == TURN; }
    if |x| == 4 && Sum(x) == -4 { assert x == BACK_TURN; }
  }

  lemma {:induction false} CleanAgainstNet(xs: seq<seq<int>>)
    requires AllExcursions(xs)
    ensures NetTotal(xs) - LongExcursions(xs) <= CleanTotal(xs) <= NetTotal(xs) + LongExcursions(xs)
  {
    if xs != [] {
      CleanAgainstNet(xs[..|xs| - 1]);
      NetOfExcursion(xs[|xs| - 1]);
    }
  }

  /**
    The emitted total is forward minus reverse clean excursions. It differs from the unrolled
    position, in revolutions, by at most one for each closed excursion of six or more moves.
  */
  lemma {:induction false} WindingTheorem(t: seq<Sample>)
    requires FromDetent(t)
    ensures var w := Cut(Moves(t));
            && Sum(Diffs(t)) == CleanTotal(w.closed)
            && Unrolled(t) == 4 * NetTotal(w.closed) + Sum(w.open)
            && -4 < Sum(w.open) < 4
            && NetTotal(w.closed) - LongExcursions(w.closed) <= Sum(Diffs(t))
                 <= NetTotal(w.closed) + LongExcursions(w.closed)
  {
    EmittedIsClean(t);
    WalkEdges(t);
    CutAtDetents(Moves(t));
    CleanAgainstNet(Cut(Moves(t)).closed);
    OpenInside(Cut(Moves(t)).open);
  }

  lemma {:induction false} OpenInside(o: seq<int>)
    requires IsOpen(o)
    ensures -4 < Sum(o) < 4
  {
    if o != [] {
      StaysInside(o, |o| - 1);
      PartialSums(o, |o| - 1);
      assert o[..|o|] == o;
    }
  }

  lemma {:induction false} ClosedGrows(t: seq<Sample>, i: nat)
    requires i <= |t|
    ensures Cut(Moves(t[..i])).closed <= Cut(Moves(t)).closed
    decreases |t|
  {
    hide Cut, Moves;
    if i == |t| {
      TakeAll(t);
    } else {
      var p, s := t[..|t| - 1], t[|t| - 1];
      ClosedGrows(p, i);
      TakeTake(t, |t| - 1, i);
      SplitLast(t);
      ClosedStep(p, s);
      PrefixOfPrefix(Cut(Moves(t[..i])).closed, Cut(Moves(p)).closed, Cut(Moves(t)).closed);
    }
  }

  lemma PrefixOfPrefix(a: seq<seq<int>>, b: seq<seq<int>>, c: seq<seq<int>>)
    requires a <= b <= c
    ensures a <= c
  {
  }

  lemma {:induction false} ClosedStep(p: seq<Sample>, s: Sample)
    ensures Cut(Moves(p)).closed <= Cut(Moves(p + [s])).closed
  {
    if p != [] {
      SnocMoves(p, s);
      SnocCut(Moves(p), Move(LastSample(p), s));
    }
  }

  /** Back without going round, or four moves long: an excursion the decoder counts for what it is. */
  predicate Counted(x: seq<int>) {
    Sum(x) == 0 || |x| == 4
  }

  lemma {:induction false} CountedIff(x: seq<int>)
    requires IsExcursion(x)
    ensures Sum(x) / 4 == Clean(x) <==> Counted(x)
  {
    NetOfExcursion(x);
    if Clean(x) != 0 { CleanCloses(x); }
  }

  /** At the end of this walk the emitted steps are the revolutions made. */
  predicate Exact(t: seq<Sample>) {
    Unrolled(t) == 4 * Sum(Diffs(t))
  }

  lemma {:induction false} ExactAtDetent(t: seq<Sample>)
    requires FromDetent(t) && LastSample(t) == DETENT
    ensures var xs := Cut(Moves(t)).closed; Exact(t) <==> NetTotal(xs) == CleanTotal(xs)
  {
    EmittedIsClean(t);
    WalkEdges(t);
    CutAtDetents(Moves(t));
    RightAtDetent(Cut(Moves(t)), Unrolled(t));
  }

  lemma {:induction false} PrefixFromDetent(t: seq<Sample>, i: nat)
    requires FromDetent(t) && i < |t|
    ensures FromDetent(t[..i + 1]) && LastSample(t[..i + 1]) == t[i]
  {
    var u := t[..i + 1];
    forall k | 0 < k < |u| ensures !TwoBits(u[k - 1], u[k]) {
      assert !TwoBits(t[k - 1], t[k]);
    }
  }

  /** An excursion that is closed by a move is closed at the detent. */
  lemma {:induction false} ClosingVisit(p: seq<Sample>, s: Sample)
    requires FromDetent(p + [s]) && p != []
    ensures var n, m := |Cut(Moves(p)).closed|, |Cut(Moves(p + [s])).closed|;
            m == n || (s == DETENT && m == n + 1)
  {
    SnocMoves(p, s);
    SnocCut(Moves(p), Move(LastSample(p), s));
    WalkEdges(p + [s]);
    CutAtDetents(Moves(p + [s]));
    RightAtDetent(Cut(Moves(p + [s])), Unrolled(p + [s]));
  }

  /** Each closed excursion ends at a visit to the detent. */
  lemma {:induction false} VisitOf(t: seq<Sample>, k: nat) returns (i: nat)
    requires FromDetent(t) && k < |Cut(Moves(t)).closed|
    ensures i < |t| && t[i] == DETENT
    ensures Cut(Moves(t[..i + 1])).closed == Cut(Moves(t)).closed[..k + 1]
    decreases |t|
  {
    hide Cut, Moves, LastSample;
    SomeMoves(t);
    var p, s := t[..|t| - 1], t[|t| - 1];
    assert t == p + [s];
    FromDetentPrefix(p, s);
    ClosedStep(p, s);
    if k < |Cut(Moves(p)).closed| {
      i := VisitOf(p, k);
      TakeTake(t, |t| - 1, i + 1);
    } else {
      ClosingVisit(p, s);
      i := |t| - 1;
      TakeAll(t);
      TakeAll(Cut(Moves(t)).closed);
    }
  }

  lemma {:induction false} SomeMoves(t: seq<Sample>)
    requires |Cut(Moves(t)).closed| > 0
    ensures |t| > 1
  {
  }

  lemma {:induction false} TotalsAgree(xs: seq<seq<int>>)
    requires forall k | 0 <= k < |xs| :: Sum(xs[k]) / 4 == Clean(xs[k])
    ensures NetTotal(xs) == CleanTotal(xs)
  {
    if xs != [] { TotalsAgree(xs[..|xs| - 1]); }
  }

  lemma {:induction false} TotalsTake(xs: seq<seq<int>>, k: nat)
    requires k < |xs|
    ensures NetTotal(xs[..k + 1]) == NetTotal(xs[..k]) + Sum(xs[k]) / 4
    ensures CleanTotal(xs[..k + 1]) == CleanTotal(xs[..k]) + Clean(xs[k])
  {
    assert xs[..k + 1] == xs[..k] + [xs[k]];
    SnocTotals(xs[..k], xs[k]);
  }

  /** The count is exact at every visit to the detent. */
  ghost predicate ExactAtVisits(t: seq<Sample>) {
    forall i | 0 <= i < |t| && t[i] == DETENT :: Exact(t[..i + 1])
  }

  lemma {:induction false} ExactTotals(t: seq<Sample>, k: nat)
    requires FromDetent(t) && ExactAtVisits(t) && k <= |Cut(Moves(t)).closed|
    ensures var xs := Cut(Moves(t)).closed[..k]; NetTotal(xs) == CleanTotal(xs)
  {
    if k > 0 {
      hide Cut, Moves, LastSample, Exact;
      var i := VisitOf(t, k - 1);
      PrefixFromDetent(t, i);
      ExactAtDetent(t[..i + 1]);
    }
  }

  /**
    The emitted steps are the winding number at every visit to the detent exactly if each excursion
    comes back without going round, or is four moves long.
  */
  lemma {:induction false} ExactIff(t: seq<Sample>)
    requires FromDetent(t)
    ensures ExactAtVisits(t) <==> forall x <- Cut(Moves(t)).closed :: Counted(x)
  {
    hide Cut, Moves, LastSample, Exact, Counted, Clean;
    var xs := Cut(Moves(t)).closed;
    WalkEdges(t);
    CutAtDetents(Moves(t));
    if ExactAtVisits(t) {
      forall k | 0 <= k < |xs| ensures Counted(xs[k]) {
        ExactTotals(t, k);
        ExactTotals(t, k + 1);
        TotalsTake(xs, k);
        CountedIff(xs[k]);
      }
    }
    if forall x <- xs :: Counted(x) {
      forall i | 0 <= i < |t| && t[i] == DETENT ensures Exact(t[..i + 1]) {
        ClosedGrows(t, i + 1);
        var ys := Cut(Moves(t[..i + 1])).closed;
        forall k | 0 <= k < |ys| ensures Sum(ys[k]) / 4 == Clean(ys[k]) {
          assert ys[k] == xs[k] && xs[k] in xs;
          CountedIff(xs[k]);
        }
        TotalsAgree(ys);
        PrefixFromDetent(t, i);
        ExactAtDetent(t[..i + 1]);
      }
    }
  }

  /** So it is when no excursion takes six moves or more. */
  lemma {:induction false} BounceFreeIsExact(t: seq<Sample>)
    requires FromDetent(t)
    requires forall x <- Cut(Moves(t)).closed :: |x| < 6
    ensures ExactAtVisits(t)
  {
    var xs := Cut(Moves(t)).closed;
    WalkEdges(t);
    CutAtDetents(Moves(t));
    forall x | x in xs ensures Counted(x) {
      var k :| 0 <= k < |xs| && xs[k] == x;
      NetOfExcursion(xs[k]);
      CountedIff(x);
    }
    ExactIff(t);
  }

  /** A turn that hesitates once on the way. */
  const HESITANT: seq<Sample> := [DETENT, TWO, ZERO, TWO, ZERO, ONE, DETENT]

  /** It is a revolution, and no step is emitted. */
  lemma {:induction false} HesitantTurnIsLost()
    ensures FromDetent(HESITANT) && Unrolled(HESITANT) == 4 && Sum(Diffs(HESITANT)) == 0
  {
    var p := [DETENT];
    var t1 := p + [TWO];
    var t2 := t1 + [ZERO];
    var t3 := t2 + [TWO];
    var t4 := t3 + [ZERO];
    var t5 := t4 + [ONE];
    var t6 := t5 + [DETENT];
    assert |Moves(p)| == 0 && LastSample(p) == DETENT;
    SnocMoves(p, TWO);
    SnocMoves(t1, ZERO);
    SnocMoves(t2, TWO);
    SnocMoves(t3, ZERO);
    SnocMoves(t4, ONE);
    SnocMoves(t5, DETENT);
    assert t6 == HESITANT;
    assert FromDetent(t6);
    HesitantMoves(Moves(t6));
    EmittedIsClean(t6);
  }

  /** The first `k` moves are one excursion that has come to position `n`. */
  ghost predicate Under(ms: seq<int>, k: nat, n: int) {
    k <= |ms| && |Cut(ms[..k]).closed| == 0 && Cut(ms[..k]).open == ms[..k] && Sum(ms[..k]) == n
  }

  lemma {:induction false} StillAway(ms: seq<int>, k: nat, n: int)
    requires k < |ms| && Under(ms, k, n) && (n + ms[k]) % 4 != 0
    ensures Under(ms, k + 1, n + ms[k])
  {
    assert ms[..k + 1] == ms[..k] + [ms[k]];
    SnocCut(ms[..k], ms[k]);
    SnocSum(ms[..k], ms[k]);
  }

  lemma {:induction false} UnderNone(ms: seq<int>)
    ensures Under(ms, 0, 0)
  {
    assert ms[..0] == [];
  }

  lemma {:induction false} HesitantHalf(ms: seq<int>)
    requires |ms| == 6 && ms[0] == ms[1] == 1 && ms[2] == -1
    ensures Under(ms, 3, 1)
  {
    hide Under;
    UnderNone(ms);
    StillAway(ms, 0, 0);
    StillAway(ms, 1, 1);
    StillAway(ms, 2, 2);
  }

  lemma {:induction false} HesitantMoves(ms: seq<int>)
    requires |ms| == 6 && ms[0] == ms[1] == ms[3] == ms[4] == ms[5] == 1 && ms[2] == -1
    ensures Sum(ms) == 4 && CleanTotal(Cut(ms).closed) == 0
  {
    HesitantHalf(ms);
    StillAway(ms, 3, 1);
    StillAway(ms, 4, 2);
    LastMove(ms);
  }

  lemma {:induction false} LastMove(ms: seq<int>)
    requires |ms| == 6 && Under(ms, 5, 3) && ms[5] == 1
    ensures Sum(ms) == 4 && CleanTotal(Cut(ms).closed) == 0
  {
    var p := ms[..5];
    SplitLast(ms);
    SnocSum(p, 1);
    CleanTotalGrows(p, 1);
    CleanNeedsFour(Cut(p).open + [1]);
  }
}
