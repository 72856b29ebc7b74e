/** The bits in which a descriptor keeps the latest sample and the four latest accepted edges. */
module DecoderBits {
  import opened Quadrature
  import opened Seqs

  /** The table of accepted codes; a code is the previous sample followed by the new one. */
  const VALID_STATES: seq<int> := [0, 1, 1, 0, 1, 0, 0, 1, 1, 0, 0, 1, 0, 1, 1, 0]

  function Level(high: bool): bv8 {
    if high then 1 else 0
  }

  function Bits(s: Sample): bv8 {
    (Level(s.b) << 1) | Level(s.a)
  }

  function Code(p: Sample, q: Sample): bv8 {
    (Bits(p) << 2) | Bits(q)
  }

  function Nibble(e: Edge): bv16 {
    Code(e.from, e.to) as bv16
  }

  /** The k-th latest edge as a nibble; zero when there is none. */
  function Recent(es: seq<Edge>, k: nat): bv16 {
    if k < |es| then Nibble(es[|es| - 1 - k]) else 0
  }

  /** The four latest edges, one to a nibble, the latest in the lowest. */
  function Pack(es: seq<Edge>): bv16 {
    (Recent(es, 3) << 12) | (Recent(es, 2) << 8) | (Recent(es, 1) << 4) | Recent(es, 0)
  }

  lemma CodeShift(code: bv8, p: Sample, q: Sample)
    requires code & 3 == Bits(p)
    ensures ((code << 2) | Level(q.a) | (Level(q.b) << 1)) & 0xf == Code(p, q)
    ensures Code(p, q) & 3 == Bits(q)
    ensures Code(p, q) < 16
  {
  }


  /** The table holds a one exactly for the pairs of samples that differ in one pin. */
  lemma TableIsOneBit(p: Sample, q: Sample)
    ensures (Code(p, q) as int) < 16
    ensures VALID_STATES[Code(p, q) as int] != 0 <==> OneBit(p, q)
  {
  }

  /** Shifting a nibble in appends the edge to the packed history. */
  lemma PackSnoc(es: seq<Edge>, e: Edge)
    ensures Pack(es + [e]) == (Pack(es) << 4) | Nibble(e)
  {
  }

  lemma NibblesApart(w: bv16, x: bv16, y: bv16, z: bv16)
    requires w < 16 && x < 16 && y < 16 && z < 16
    ensures (w << 12) | (x << 8) | (y << 4) | z == 0xe817 <==> w == 0xe && x == 0x8 && y == 0x1 && z == 0x7
    ensures (w << 12) | (x << 8) | (y << 4) | z == 0xd42b <==> w == 0xd && x == 0x4 && y == 0x2 && z == 0xb
  {
  }

  lemma NibbleOf(e: Edge)
    ensures Nibble(e) == 0xe <==> e == Edge(DETENT, TWO)
    ensures Nibble(e) == 0x8 <==> e == Edge(TWO, ZERO)
    ensures Nibble(e) == 0x1 <==> e == Edge(ZERO, ONE)
    ensures Nibble(e) == 0x7 <==> e == Edge(ONE, DETENT)
    ensures Nibble(e) == 0xd <==> e == Edge(DETENT, ONE)
    ensures Nibble(e) == 0x4 <==> e == Edge(ONE, ZERO)
    ensures Nibble(e) == 0x2 <==> e == Edge(ZERO, TWO)
    ensures Nibble(e) == 0xb <==> e == Edge(TWO, DETENT)
  {
  }

  lemma FourLatest(es: seq<Edge>, f: seq<Edge>)
    requires |f| == 4
    ensures EndsWith(es, f) <==>
            |es| >= 4 && es[|es| - 4] == f[0] && es[|es| - 3] == f[1] && es[|es| - 2] == f[2] && es[|es| - 1] == f[3]
  {
  }

  lemma RecentNibbles(es: seq<Edge>)
    ensures |es| >= 4 ==> Recent(es, 3) == Nibble(es[|es| - 4]) && Recent(es, 2) == Nibble(es[|es| - 3])
                          && Recent(es, 1) == Nibble(es[|es| - 2]) && Recent(es, 0) == Nibble(es[|es| - 1])
    ensures |es| < 4 ==> Recent(es, 3) == 0
    ensures Recent(es, 0) < 16 && Recent(es, 1) < 16 && Recent(es, 2) < 16 && Recent(es, 3) < 16
  {
  }

  lemma MagicForward(es: seq<Edge>)
    ensures Pack(es) == 0xe817 <==> EndsWith(es, FORWARD)
  {
    RecentNibbles(es);
    NibblesApart(Recent(es, 3), Recent(es, 2), Recent(es, 1), Recent(es, 0));
    FourLatest(es, FORWARD);
    if |es| >= 4 {
      NibbleOf(es[|es| - 4]);
      NibbleOf(es[|es| - 3]);
      NibbleOf(es[|es| - 2]);
      NibbleOf(es[|es| - 1]);
    }
  }

  lemma MagicReverse(es: seq<Edge>)
    ensures Pack(es) == 0xd42b <==> EndsWith(es, REVERSE)
  {
    RecentNibbles(es);
    NibblesApart(Recent(es, 3), Recent(es, 2), Recent(es, 1), Recent(es, 0));
    FourLatest(es, REVERSE);
    if |es| >= 4 {
      NibbleOf(es[|es| - 4]);
      NibbleOf(es[|es| - 3]);
      NibbleOf(es[|es| - 2]);
      NibbleOf(es[|es| - 1]);
    }
  }

  /** The two magic words stand for the two turns, and only for them, whatever came before. */
  lemma MagicWords(es: seq<Edge>)
    ensures Pack(es) == 0xe817 <==> EndsWith(es, FORWARD)
    ensures Pack(es) == 0xd42b <==> EndsWith(es, REVERSE)
  {
    MagicForward(es);
    MagicReverse(es);
  }

  lemma IndexOf(code: bv8, q: Sample)
    ensures (NextCode(code, q) as int) < 16
  {
  }

  /** The code after one poll: two bits up, pin A in bit 0, pin B in bit 1, four bits kept. */
  function NextCode(code: bv8, q: Sample): bv8 {
    ((code << 2) | Level(q.a) | (Level(q.b) << 1)) & 0xf
  }

  /** The store after an accepted edge: one nibble up, truncated to 16 bits. */
  function NextStore(store: bv16, code: bv8): bv16 {
    (store << 4) | (code as bv16)
  }

  /** The two words encode a trace: the latest sample, and the four latest accepted edges. */
  ghost predicate Encodes(code: bv8, store: bv16, t: seq<Sample>) {
    code & 3 == Bits(LastSample(t)) && store == Pack(EdgesOf(t))
  }

  lemma NextCodeOf(code: bv8, p: Sample, q: Sample)
    requires code & 3 == Bits(p)
    ensures NextCode(code, q) == Code(p, q)
    ensures (NextCode(code, q) as int) < 16
    ensures NextCode(code, q) & 3 == Bits(q)
    ensures VALID_STATES[NextCode(code, q) as int] != 0 <==> OneBit(p, q)
  {
  }

  lemma NextStoreOf(store: bv16, es: seq<Edge>, p: Sample, q: Sample)
    requires store == Pack(es)
    ensures NextStore(store, Code(p, q)) == Pack(es + [Edge(p, q)])
  {
  }

  lemma WordOfMatch(es: seq<Edge>)
    ensures Match(es) == if Pack(es) == 0xe817 then 1 else if Pack(es) == 0xd42b then -1 else 0
  {
    MagicWords(es);
  }

  /** The next sample keeps the encoding, and the words decide what it emits. */
  lemma NextEncodes(code: bv8, store: bv16, t: seq<Sample>, q: Sample)
    requires Encodes(code, store, t)
    ensures var c, s := NextCode(code, q), NextStore(store, NextCode(code, q));
            && (c as int) < 16
            && if VALID_STATES[c as int] == 0 then
                 Encodes(c, store, t + [q]) && DiffAt(t + [q]) == 0
               else
                 Encodes(c, s, t + [q]) && DiffAt(t + [q]) == if s == 0xe817 then 1 else if s == 0xd42b then -1 else 0
  {
    var p := LastSample(t);
    var es := EdgesOf(t);
    SnocEdges(t, q);
    NextCodeOf(code, p, q);
    if OneBit(p, q) {
      NextStoreOf(store, es, p, q);
      WordOfMatch(es + [Edge(p, q)]);
    } else {
      assert EdgesOf(t + [q]) == es;
    }
  }

  /** The two words of a descriptor. */
  datatype Words = Words(code: bv8, store: bv16)

  function Next(w: Words, q: Sample): Words {
    var c := NextCode(w.code, q);
    IndexOf(w.code, q);
    Words(c, if VALID_STATES[c as int] == 0 then w.store else NextStore(w.store, c))
  }

  /** The words after a trace, from a zeroed descriptor. */
  function WordsAfter(t: seq<Sample>): Words {
    if t == [] then Words(0, 0) else Next(WordsAfter(t[..|t| - 1]), t[|t| - 1])
  }

  /** After any trace the words hold the latest sample and the four latest accepted edges. */
  lemma {:induction false} WordsEncode(t: seq<Sample>)
    ensures Encodes(WordsAfter(t).code, WordsAfter(t).store, t)
  {
    if t != [] {
      var p := t[..|t| - 1];
      WordsEncode(p);
      NextEncodes(WordsAfter(p).code, WordsAfter(p).store, p, t[|t| - 1]);
      SplitLast(t);
    }
  }

  /** The next sample emits what the new code and store decide. */
  lemma {:induction false} WordsDecide(t: seq<Sample>, q: Sample)
    ensures WordsAfter(t + [q]) == Next(WordsAfter(t), q)
    ensures var w := Next(WordsAfter(t), q);
            && (w.code as int) < 16
            && DiffAt(t + [q]) ==
               if VALID_STATES[w.code as int] == 0 then 0
               else if w.store == 0xe817 then 1 else if w.store == 0xd42b then -1 else 0
  {
    TakeSnoc(t, q);
    WordsEncode(t);
    NextEncodes(WordsAfter(t).code, WordsAfter(t).store, t, q);
  }
}
