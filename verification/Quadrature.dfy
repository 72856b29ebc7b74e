/**
  The quadrature decoder of the rotary encoder, stated on walks.

  A trace is the sequence of samples polled since the descriptor was zeroed. The decoder accepts
  a pair of successive samples exactly when one pin changed, and remembers the accepted edges; a
  step is emitted when the four latest edges are one full turn of the four positions through the
  detent, where both pins are high.
*/
module Quadrature {
  import opened Seqs

  /** One reading of the two pins. The descriptor keeps it as the two bits b, a. */
  datatype Sample = Sample(b: bool, a: bool)

  datatype Edge = Edge(from: Sample, to: Sample)

  /** The sample that a zeroed descriptor pretends to have seen. */
  const ZERO := Sample(false, false)
  const ONE := Sample(false, true)
  const TWO := Sample(true, false)
  const DETENT := Sample(true, true)

  const FORWARD: seq<Edge> := [Edge(DETENT, TWO), Edge(TWO, ZERO), Edge(ZERO, ONE), Edge(ONE, DETENT)]
  const REVERSE: seq<Edge> := [Edge(DETENT, ONE), Edge(ONE, ZERO), Edge(ZERO, TWO), Edge(TWO, DETENT)]

  predicate OneBit(p: Sample, q: Sample) {
    (p.a != q.a) != (p.b != q.b)
  }

  predicate TwoBits(p: Sample, q: Sample) {
    p.a != q.a && p.b != q.b
  }

  function LastSample(t: seq<Sample>): Sample {
    if t == [] then ZERO else t[|t| - 1]
  }

  /** The edge between two samples, if the decoder accepts it. */
  function Step(p: Sample, q: Sample): seq<Edge> {
    if OneBit(p, q) then [Edge(p, q)] else []
  }

  /** All edges accepted over a trace, oldest first. */
  function EdgesOf(t: seq<Sample>): seq<Edge> {
    if t == [] then [] else
      var p := t[..|t| - 1];
      EdgesOf(p) + Step(LastSample(p), t[|t| - 1])
  }

  predicate EndsWith<T(==)>(s: seq<T>, p: seq<T>) {
    |p| <= |s| && forall i | 0 <= i < |p| :: s[|s| - |p| + i] == p[i]
  }

  /** The direction that a history of edges, just extended, stands for. */
  function Match(es: seq<Edge>): int {
    if EndsWith(es, FORWARD) then 1 else if EndsWith(es, REVERSE) then -1 else 0
  }

  /** What the latest poll of a trace emits: 1, -1, or 0 for nothing. */
  function DiffAt(t: seq<Sample>): int
    requires t != []
  {
    if OneBit(LastSample(t[..|t| - 1]), t[|t| - 1]) then Match(EdgesOf(t)) else 0
  }

  /** What every poll of a trace emits. */
  function Diffs(t: seq<Sample>): (ds: seq<int>)
    ensures |ds| == |t|
  {
    if t == [] then [] else Diffs(t[..|t| - 1]) + [DiffAt(t)]
  }

  /** The emitted steps alone, in order. */
  function StepsOf(t: seq<Sample>): seq<int> {
    if t == [] then [] else
      StepsOf(t[..|t| - 1]) + (if DiffAt(t) == 0 then [] else [DiffAt(t)])
  }

  function Count(ds: seq<int>, v: int): nat {
    if ds == [] then 0 else
      Count(ds[..|ds| - 1], v) + (if ds[|ds| - 1] == v then 1 else 0)
  }

  /** How many prefixes of `es` end with `p`. */
  function CountEnds(es: seq<Edge>, p: seq<Edge>): nat {
    if es == [] then 0 else
      CountEnds(es[..|es| - 1], p) + (if EndsWith(es, p) then 1 else 0)
  }

  lemma SnocEdges(t: seq<Sample>, s: Sample)
    ensures EdgesOf(t + [s]) == EdgesOf(t) + Step(LastSample(t), s)
    ensures StepsOf(t + [s]) == StepsOf(t) + (if DiffAt(t + [s]) == 0 then [] else [DiffAt(t + [s])])
    ensures Diffs(t + [s]) == Diffs(t) + [DiffAt(t + [s])]
    ensures DiffAt(t + [s]) ==
            if OneBit(LastSample(t), s) then Match(EdgesOf(t) + [Edge(LastSample(t), s)]) else 0
  {
  }

  // ---------------------------------------------------------------------------------------------
  // Each step is paid for by four edges of its own.
  // ---------------------------------------------------------------------------------------------

  /** A full turn returns to the detent with its fourth edge and not before. */
  lemma TurnShape(es: seq<Edge>, n: nat)
    requires n <= |es| && Match(es[..n]) != 0
    ensures 4 <= n && es[n - 1].to == DETENT
    ensures es[n - 2].to != DETENT && es[n - 3].to != DETENT && es[n - 4].to != DETENT
  {
    var s := es[..n];
    assert s[n - 4 + 0] == es[n - 4] && s[n - 4 + 1] == es[n - 3];
    assert s[n - 4 + 2] == es[n - 2] && s[n - 4 + 3] == es[n - 1];
    assert forall p: seq<Edge> | EndsWith(s, p) && |p| == 4 ::
        s[n - 4 + 0] == p[0] && s[n - 4 + 1] == p[1] && s[n - 4 + 2] == p[2] && s[n - 4 + 3] == p[3];
  }

  /** Two different occurrences of a full turn share no edge. */
  lemma MatchesAreDisjoint(es: seq<Edge>, i: nat, j: nat)
    requires i < j <= |es|
    requires Match(es[..i]) != 0 && Match(es[..j]) != 0
    ensures i + 4 <= j
  {
    TurnShape(es, i);
    TurnShape(es, j);
  }

  function CountTurns(es: seq<Edge>): nat {
    CountEnds(es, FORWARD) + CountEnds(es, REVERSE)
  }

  lemma CountTurnsStep(es: seq<Edge>, i: nat)
    requires 0 < i <= |es|
    ensures CountTurns(es[..i]) == CountTurns(es[..i - 1]) + (if Match(es[..i]) != 0 then 1 else 0)
  {
    assert es[..i][..i - 1] == es[..i - 1];
    assert FORWARD[0] != REVERSE[0];
  }

  lemma {:induction false} MatchesBounded(es: seq<Edge>)
    ensures 4 * CountTurns(es) <= |es|
  {
    var n := |es|;
    assert es[..n] == es;
    if n != 0 {
      CountTurnsStep(es, n);
      if Match(es) == 0 {
        MatchesBounded(es[..n - 1]);
      } else {
        MatchesBounded(es[..n - 4]);
        QuietBeforeTurn(es, n - 3);
        QuietBeforeTurn(es, n - 2);
        QuietBeforeTurn(es, n - 1);
      }
    }
  }

  /** The three edges before the last one of a turn complete none. */
  lemma QuietBeforeTurn(es: seq<Edge>, i: nat)
    requires Match(es[..|es|]) != 0 && |es| - 4 < i < |es|
    ensures CountTurns(es[..i]) == CountTurns(es[..i - 1])
  {
    TurnShape(es, |es|);
    CountTurnsStep(es, i);
    if Match(es[..i]) != 0 { MatchesAreDisjoint(es, i, |es|); }
  }

  /** The polls that emit a direction are the prefixes of the edge history that end with its turn. */
  lemma {:induction false} DiffsCountTurns(t: seq<Sample>)
    ensures Count(Diffs(t), 1) == CountEnds(EdgesOf(t), FORWARD)
    ensures Count(Diffs(t), -1) == CountEnds(EdgesOf(t), REVERSE)
  {
    if t != [] {
      var p, s := t[..|t| - 1], t[|t| - 1];
      DiffsCountTurns(p);
      assert Diffs(t)[..|t| - 1] == Diffs(p);
      if OneBit(LastSample(p), s) {
        assert EdgesOf(t)[..|EdgesOf(t)| - 1] == EdgesOf(p);
        assert !(EndsWith(EdgesOf(t), FORWARD) && EndsWith(EdgesOf(t), REVERSE)) by {
          assert FORWARD[0] != REVERSE[0];
        }
      } else {
        assert EdgesOf(t) == EdgesOf(p);
      }
    }
  }

  /** Over any trace, four accepted edges are used up by each emitted step. */
  lemma StepsCostFourEdges(t: seq<Sample>)
    ensures 4 * (Count(Diffs(t), 1) + Count(Diffs(t), -1)) <= |EdgesOf(t)| <= |t|
  {
    DiffsCountTurns(t);
    MatchesBounded(EdgesOf(t));
    EdgesAtMostPolls(t);
  }

  lemma {:induction false} EdgesAtMostPolls(t: seq<Sample>)
    ensures |EdgesOf(t)| <= |t|
  {
    if t != [] { EdgesAtMostPolls(t[..|t| - 1]); }
  }

  // ---------------------------------------------------------------------------------------------
  // Time reversal.
  // ---------------------------------------------------------------------------------------------

  function Backwards<T>(t: seq<T>): seq<T> {
    seq(|t|, k requires 0 <= k < |t| => t[|t| - 1 - k])
  }

  /** A walk seen backwards: the edges in the opposite order, each with its ends exchanged. */
  function Mirror(es: seq<Edge>): seq<Edge> {
    seq(|es|, k requires 0 <= k < |es| => Edge(es[|es| - 1 - k].to, es[|es| - 1 - k].from))
  }

  /** The edges between samples that were really polled. */
  function RealEdges(t: seq<Sample>): seq<Edge> {
    if |t| <= 1 then [] else RealEdges(t[..|t| - 1]) + Step(t[|t| - 2], t[|t| - 1])
  }

  /** The edge from the pretended first sample, which no pin ever made. */
  function Phantom(t: seq<Sample>): seq<Edge> {
    if t == [] then [] else Step(ZERO, t[0])
  }

  lemma {:induction false} PhantomThenReal(t: seq<Sample>)
    ensures EdgesOf(t) == Phantom(t) + RealEdges(t)
  {
    if |t| > 1 {
      PhantomThenReal(t[..|t| - 1]);
    } else if |t| == 1 {
      assert EdgesOf(t[..0]) == [];
    }
  }

  lemma {:induction false} SnocRealEdges(t: seq<Sample>, s: Sample)
    requires t != []
    ensures RealEdges(t + [s]) == RealEdges(t) + Step(t[|t| - 1], s)
  {
  }

  lemma {:induction false} ConsRealEdges(s: Sample, t: seq<Sample>)
    requires t != []
    ensures RealEdges([s] + t) == Step(s, t[0]) + RealEdges(t)
  {
    if |t| == 1 {
      assert [s] + t == [s] + [t[0]];
      SnocRealEdges([s], t[0]);
    } else {
      var p, q := t[..|t| - 1], t[|t| - 1];
      ConsRealEdges(s, p);
      SplitLast(t);
      SnocRealEdges(p, q);
      ConcatLast([s], t);
      SnocRealEdges([s] + p, q);
      Assoc(Step(s, t[0]), RealEdges(p), Step(p[|p| - 1], q));
    }
  }

  lemma MirrorSnocStep(es: seq<Edge>, p: Sample, q: Sample)
    ensures Mirror(es + Step(p, q)) == Step(q, p) + Mirror(es)
  {
  }

  lemma {:induction false} RealEdgesBackwards(t: seq<Sample>)
    ensures RealEdges(Backwards(t)) == Mirror(RealEdges(t))
  {
    if |t| > 1 {
      var p, s := t[..|t| - 1], t[|t| - 1];
      RealEdgesBackwards(p);
      assert Backwards(t) == [s] + Backwards(p);
      ConsRealEdges(s, Backwards(p));
      MirrorSnocStep(RealEdges(p), p[|p| - 1], s);
    }
  }

  lemma {:induction false} SnocCountEnds(es: seq<Edge>, e: Edge, p: seq<Edge>)
    ensures CountEnds(es + [e], p) == CountEnds(es, p) + (if EndsWith(es + [e], p) then 1 else 0)
  {
  }

  lemma ConsEndsWith(e: Edge, es: seq<Edge>, p: seq<Edge>)
    ensures EndsWith([e] + es, p) <==> EndsWith(es, p) || p == [e] + es
    ensures !(EndsWith(es, p) && p == [e] + es)
  {
  }

  lemma SnocPrefix(all: seq<Edge>, f: Edge, p: seq<Edge>)
    ensures p <= all + [f] <==> p <= all || p == all + [f]
    ensures !(p <= all && p == all + [f])
  {
  }

  lemma {:induction false} ConsStep(e: Edge, q: seq<Edge>, f: Edge, p: seq<Edge>)
    requires CountEnds([e] + q, p) == CountEnds(q, p) + (if p <= [e] + q then 1 else 0)
    ensures CountEnds([e] + (q + [f]), p) == CountEnds(q + [f], p) + (if p <= [e] + (q + [f]) then 1 else 0)
  {
    Assoc([e], q, [f]);
    SnocCountEnds(q, f, p);
    SnocCountEnds([e] + q, f, p);
    ConsEndsWith(e, q + [f], p);
    SnocPrefix([e] + q, f, p);
  }

  lemma {:induction false} CountOne(es: seq<Edge>, p: seq<Edge>)
    requires p != [] && |es| == 1
    ensures CountEnds(es, p) == if p == es then 1 else 0
  {
  }

  /** One more edge in front adds one end exactly when it adds a start. */
  lemma {:induction false} ConsCountEnds(e: Edge, es: seq<Edge>, p: seq<Edge>)
    requires p != []
    ensures CountEnds([e] + es, p) == CountEnds(es, p) + (if p <= [e] + es then 1 else 0)
  {
    if es == [] {
      CountOne([e] + es, p);
    } else {
      ConsCountEnds(e, es[..|es| - 1], p);
      ConsStep(e, es[..|es| - 1], es[|es| - 1], p);
      SplitLast(es);
    }
  }

  /** No turn starts at ZERO, so the phantom edge never takes part in one. */
  lemma {:induction false} PhantomNeverMatches(t: seq<Sample>, es: seq<Edge>, p: seq<Edge>)
    requires p == FORWARD || p == REVERSE
    ensures CountEnds(Phantom(t) + es, p) == CountEnds(es, p)
  {
    if Phantom(t) == [] {
      assert Phantom(t) + es == es;
    } else {
      ConsCountEnds(Edge(ZERO, t[0]), es, p);
      assert p[0].from == DETENT;
    }
  }

  lemma {:induction false} CountEndsMirror(es: seq<Edge>, p: seq<Edge>)
    requires p != []
    ensures CountEnds(Mirror(es), Mirror(p)) == CountEnds(es, p)
  {
    if es != [] {
      var n := |es|;
      var q, e := es[..n - 1], es[n - 1];
      CountEndsMirror(q, p);
      assert Mirror(es) == [Edge(e.to, e.from)] + Mirror(q);
      ConsCountEnds(Edge(e.to, e.from), Mirror(q), Mirror(p));
      MirrorPrefix(es, p);
    }
  }

  lemma MirrorPrefix(es: seq<Edge>, p: seq<Edge>)
    ensures Mirror(p) <= Mirror(es) <==> EndsWith(es, p)
  {
    if EndsWith(es, p) {
      forall k | 0 <= k < |p| ensures Mirror(p)[k] == Mirror(es)[k] {
        assert p[|p| - 1 - k] == es[|es| - |p|..][|p| - 1 - k];
      }
    }
    if Mirror(p) <= Mirror(es) {
      forall k | 0 <= k < |p| ensures p[k] == es[|es| - |p| + k] {
        assert Mirror(p)[|p| - 1 - k] == Mirror(es)[|p| - 1 - k];
      }
    }
  }

  lemma MirroredTurns()
    ensures Mirror(FORWARD) == REVERSE && Mirror(REVERSE) == FORWARD
  {
  }

  /** Playing a trace backwards into a zeroed descriptor exchanges the two directions. */
  lemma TimeReversal(t: seq<Sample>)
    ensures Count(Diffs(Backwards(t)), 1) == Count(Diffs(t), -1)
    ensures Count(Diffs(Backwards(t)), -1) == Count(Diffs(t), 1)
  {
    var u := Backwards(t);
    DiffsCountTurns(t);
    DiffsCountTurns(u);
    PhantomThenReal(t);
    PhantomThenReal(u);
    RealEdgesBackwards(t);
    MirroredTurns();
    CountEndsMirror(RealEdges(t), FORWARD);
    CountEndsMirror(RealEdges(t), REVERSE);
    PhantomNeverMatches(t, RealEdges(t), FORWARD);
    PhantomNeverMatches(t, RealEdges(t), REVERSE);
    PhantomNeverMatches(u, RealEdges(u), FORWARD);
    PhantomNeverMatches(u, RealEdges(u), REVERSE);
  }

  // ---------------------------------------------------------------------------------------------
  // Exchanging the two pins.
  // ---------------------------------------------------------------------------------------------

  function SwapPins(t: seq<Sample>): seq<Sample> {
    seq(|t|, k requires 0 <= k < |t| => Sample(t[k].a, t[k].b))
  }

  function SwapEdges(es: seq<Edge>): seq<Edge> {
    seq(|es|, k requires 0 <= k < |es| =>
      Edge(Sample(es[k].from.a, es[k].from.b), Sample(es[k].to.a, es[k].to.b)))
  }

  lemma {:induction false} EdgesOfSwapped(t: seq<Sample>)
    ensures EdgesOf(SwapPins(t)) == SwapEdges(EdgesOf(t))
  {
    if t != [] {
      EdgesOfSwapped(t[..|t| - 1]);
      assert SwapPins(t)[..|t| - 1] == SwapPins(t[..|t| - 1]);
    }
  }

  lemma SwapMatch(es: seq<Edge>)
    ensures Match(SwapEdges(es)) == -Match(es)
  {
    assert SwapEdges(FORWARD) == REVERSE && SwapEdges(REVERSE) == FORWARD;
    if |es| >= 4 {
      var w := es[|es| - 4..];
      assert SwapEdges(es)[|es| - 4..] == SwapEdges(w);
      assert SwapEdges(SwapEdges(w)) == w;
      assert w == FORWARD ==> FORWARD[0] != REVERSE[0];
    }
  }

  /** Exchanging pins A and B negates every diff, at the same poll. */
  lemma {:induction false} SwapNegates(t: seq<Sample>)
    ensures forall i | 0 <= i < |t| :: Diffs(SwapPins(t))[i] == -Diffs(t)[i]
  {
    if t != [] {
      var p := t[..|t| - 1];
      SwapNegates(p);
      assert SwapPins(t)[..|t| - 1] == SwapPins(p);
      EdgesOfSwapped(t);
      SwapMatch(EdgesOf(t));
      assert DiffAt(SwapPins(t)) == -DiffAt(t);
    }
  }

  // ---------------------------------------------------------------------------------------------
  // Repeated samples.
  // ---------------------------------------------------------------------------------------------

  /** The trace without samples that repeat the one before (ZERO counts as polled first). */
  function Destutter(t: seq<Sample>): seq<Sample> {
    if t == [] then [] else
      var p := t[..|t| - 1];
      if t[|t| - 1] == LastSample(p) then Destutter(p) else Destutter(p) + [t[|t| - 1]]
  }

  lemma {:induction false} DestutterKeepsSteps(t: seq<Sample>)
    ensures LastSample(Destutter(t)) == LastSample(t)
    ensures EdgesOf(Destutter(t)) == EdgesOf(t)
    ensures StepsOf(Destutter(t)) == StepsOf(t)
  {
    if t != [] {
      var p, s := t[..|t| - 1], t[|t| - 1];
      DestutterKeepsSteps(p);
      assert t == p + [s];
      SnocEdges(p, s);
      if s != LastSample(p) {
        SnocEdges(Destutter(p), s);
      }
    }
  }

  /** Traces that differ only in how often samples repeat emit the same steps. */
  lemma StutterInvariant(t: seq<Sample>, u: seq<Sample>)
    requires Destutter(t) == Destutter(u)
    ensures StepsOf(t) == StepsOf(u) && EdgesOf(t) == EdgesOf(u)
  {
    DestutterKeepsSteps(t);
    DestutterKeepsSteps(u);
  }

  /** Polling the same position any number of extra times, anywhere, changes no step. */
  lemma RepeatsAreInvisible(p: seq<Sample>, extra: seq<Sample>, q: seq<Sample>)
    requires forall k | 0 <= k < |extra| :: extra[k] == LastSample(p)
    ensures StepsOf(p + extra + q) == StepsOf(p + q) && EdgesOf(p + extra + q) == EdgesOf(p + q)
  {
    DropRepeats(p, extra);
    SameContinuation(p + extra, p, q);
    StutterInvariant(p + extra + q, p + q);
  }

  lemma {:induction false} SnocDestutter(t: seq<Sample>, s: Sample)
    ensures Destutter(t + [s]) == if s == LastSample(t) then Destutter(t) else Destutter(t) + [s]
    ensures LastSample(t + [s]) == s
  {
  }

  lemma {:induction false} DropRepeats(p: seq<Sample>, extra: seq<Sample>)
    requires forall k | 0 <= k < |extra| :: extra[k] == LastSample(p)
    ensures Destutter(p + extra) == Destutter(p) && LastSample(p + extra) == LastSample(p)
  {
    if extra == [] {
      assert p + extra == p;
    } else {
      var x, s := extra[..|extra| - 1], extra[|extra| - 1];
      DropRepeats(p, x);
      SnocDestutter(p + x, s);
      ConcatLast(p, extra);
    }
  }

  lemma {:induction false} SameContinuation(t: seq<Sample>, u: seq<Sample>, q: seq<Sample>)
    requires Destutter(t) == Destutter(u) && LastSample(t) == LastSample(u)
    ensures Destutter(t + q) == Destutter(u + q) && LastSample(t + q) == LastSample(u + q)
  {
    if q == [] {
      Empty(t);
      Empty(u);
    } else {
      var x, s := q[..|q| - 1], q[|q| - 1];
      SameContinuation(t, u, x);
      SnocDestutter(t + x, s);
      SnocDestutter(u + x, s);
      ConcatLast(t, q);
      ConcatLast(u, q);
    }
  }
}
