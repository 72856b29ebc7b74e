/**
  The uplink framing of the serial link: a line goes out whole if it fits a notification, and
  otherwise as numbered fragments, each behind a header of two marks, the total and its number.
*/
module Fragments {
  import opened Seqs

  type byte = n: int | 0 <= n < 256

  type Packet = seq<byte>

  const MARK: byte := 35
  const HEADER := 4

  /** The largest notification an ATT MTU allows. */
  function Whole(mtu: nat): int {
    mtu - 3
  }

  /** Line bytes in a full fragment. */
  function Room(mtu: nat): int {
    mtu - 7
  }

  function Total(n: nat, mtu: nat): nat
    requires mtu > 7
  {
    if n % Room(mtu) == 0 then n / Room(mtu) else n / Room(mtu) + 1
  }

  function Start(mtu: nat, k: nat): int
    requires k > 0
  {
    (k - 1) * Room(mtu)
  }

  function Min(a: int, b: int): int {
    if a < b then a else b
  }

  lemma TotalCovers(n: nat, mtu: nat)
    requires mtu > 7 && n > 0
    ensures var t := Total(n, mtu); t >= 1 && (t - 1) * Room(mtu) < n <= t * Room(mtu)
  {
  }

  lemma Monotone(a: int, b: int, r: nat)
    requires a <= b
    ensures a * r <= b * r
  {
  }

  /** The part of the line that fragment `k` carries. */
  function Part(line: seq<byte>, mtu: nat, k: nat): seq<byte>
    requires mtu > 7 && line != [] && 1 <= k <= Total(|line|, mtu)
  {
    TotalCovers(|line|, mtu);
    Monotone(k - 1, Total(|line|, mtu) - 1, Room(mtu));
    Monotone(0, k - 1, Room(mtu));
    line[Start(mtu, k)..Min(Start(mtu, k) + Room(mtu), |line|)]
  }

  function Fragment(line: seq<byte>, mtu: nat, k: nat): Packet
    requires mtu > 7 && line != [] && 1 <= k <= Total(|line|, mtu) < 256
  {
    [MARK, MARK, Total(|line|, mtu), k] + Part(line, mtu, k)
  }

  /** Lines that the link can carry at this MTU. */
  predicate Carried(line: seq<byte>, mtu: nat) {
    mtu > 7 && line != [] && Total(|line|, mtu) <= 254
  }

  /** The first `n` fragments of a line. */
  function FragmentsTo(line: seq<byte>, mtu: nat, n: nat): (fs: seq<Packet>)
    requires Carried(line, mtu) && n <= Total(|line|, mtu)
    ensures |fs| == n
    ensures forall i | 0 <= i < n :: fs[i] == Fragment(line, mtu, i + 1)
  {
    if n == 0 then [] else FragmentsTo(line, mtu, n - 1) + [Fragment(line, mtu, n)]
  }

  function AllFragments(line: seq<byte>, mtu: nat): seq<Packet>
    requires Carried(line, mtu)
  {
    FragmentsTo(line, mtu, Total(|line|, mtu))
  }

  /** The notifications that a line becomes. */
  function Packets(line: seq<byte>, mtu: nat): seq<Packet>
    requires Carried(line, mtu)
  {
    if |line| <= Whole(mtu) then [line] else AllFragments(line, mtu)
  }

  // ---------------------------------------------------------------------------------------------
  // Sizes.
  // ---------------------------------------------------------------------------------------------

  /** The minimum ATT_MTU (Bluetooth Core, Vol 3, Part G, section 5.2.1) and the link's line buffer. */
  const MIN_MTU := 23
  const UPLINK_BUFSIZE := 512

  /** Every line the link reads is carried at every MTU that the Bluetooth Core allows. */
  lemma LinesAreCarried(line: seq<byte>, mtu: nat)
    requires mtu >= MIN_MTU && 1 <= |line| <= UPLINK_BUFSIZE
    ensures Carried(line, mtu) && Total(|line|, mtu) <= 32
  {
    TotalCovers(|line|, mtu);
    var t := Total(|line|, mtu);
    if t > 32 { Monotone(32, t - 1, Room(mtu)); }
  }

  lemma PartEnds(n: nat, mtu: nat, k: nat)
    requires mtu > 7 && n > 0 && 1 <= k <= Total(n, mtu)
    ensures 0 <= Start(mtu, k) < n
    ensures k < Total(n, mtu) ==> Start(mtu, k) + Room(mtu) < n
    ensures k == Total(n, mtu) ==> n <= Start(mtu, k) + Room(mtu)
  {
    var t, r := Total(n, mtu), Room(mtu);
    TotalCovers(n, mtu);
    Monotone(k - 1, t - 1, r);
    Monotone(0, k - 1, r);
    assert (k - 1) * r + r == k * r;
    if k < t { Monotone(k, t - 1, r); }
  }

  lemma PartSize(line: seq<byte>, mtu: nat, k: nat)
    requires mtu > 7 && line != [] && 1 <= k <= Total(|line|, mtu)
    ensures |Part(line, mtu, k)| == if k < Total(|line|, mtu) then Room(mtu) else |line| - Start(mtu, k)
    ensures 1 <= |Part(line, mtu, k)| <= Room(mtu)
  {
    PartEnds(|line|, mtu, k);
  }

  /**
    A line that does not fit becomes at least two fragments; all but the last fill a notification,
    the last has one line byte at least; each carries the same total and its own number.
  */
  lemma FragmentShape(line: seq<byte>, mtu: nat, k: nat)
    requires Carried(line, mtu) && |line| > Whole(mtu) && 1 <= k <= Total(|line|, mtu)
    ensures var f := Fragment(line, mtu, k);
            && Total(|line|, mtu) >= 2
            && (k < Total(|line|, mtu) ==> |f| == Whole(mtu))
            && HEADER + 1 <= |f| <= Whole(mtu)
            && f[0] == MARK && f[1] == MARK && f[2] == Total(|line|, mtu) && f[3] == k
            && f[HEADER..] == Part(line, mtu, k)
  {
    TotalCovers(|line|, mtu);
    PartSize(line, mtu, k);
  }

  /** In terms of lengths: up to 254 full fragments. */
  lemma CarriedIff(line: seq<byte>, mtu: nat)
    requires mtu > 7 && line != []
    ensures Carried(line, mtu) <==> |line| <= 254 * Room(mtu)
  {
    TotalCovers(|line|, mtu);
    var t := Total(|line|, mtu);
    if t <= 254 { Monotone(t, 254, Room(mtu)); } else { Monotone(254, t - 1, Room(mtu)); }
  }

  /** In bytes: a line of at most MTU - 3 goes out as it is. A longer one goes out as the least number of
      fragments that hold it at MTU - 7 each; every one begins with two number signs, their number and
      its own, and all but the last are MTU - 3 long. */
  lemma {:induction false} NotificationBytes(line: seq<byte>, mtu: nat)
    requires Carried(line, mtu)
    ensures var ps := Packets(line, mtu);
            if |line| <= mtu - 3 then ps == [line]
            else
              && |ps| < 256 && (|ps| - 1) * (mtu - 7) < |line| <= |ps| * (mtu - 7)
              && forall i {:trigger ps[i]} | 0 <= i < |ps| ::
                   && 4 < |ps[i]| <= mtu - 3 && (i < |ps| - 1 ==> |ps[i]| == mtu - 3)
                   && ps[i][..4] == [35, 35, |ps|, i + 1]
  {
    if |line| > Whole(mtu) {
      TotalCovers(|line|, mtu);
      var ps := Packets(line, mtu);
      forall i | 0 <= i < |ps|
        ensures 4 < |ps[i]| <= mtu - 3 && (i < |ps| - 1 ==> |ps[i]| == mtu - 3) && ps[i][..4] == [35, 35, |ps|, i + 1]
      {
        FragmentShape(line, mtu, i + 1);
      }
    }
  }

  // ---------------------------------------------------------------------------------------------
  // Putting fragments together again.
  // ---------------------------------------------------------------------------------------------

  /** The first packet numbered `k`, or the empty packet. */
  function Numbered(ps: seq<Packet>, k: nat): Packet {
    if ps == [] then []
    else if |ps[0]| >= HEADER && ps[0][3] == k then ps[0]
    else Numbered(ps[1..], k)
  }

  function Body(p: Packet): seq<byte> {
    if |p| >= HEADER then p[HEADER..] else []
  }

  /** The bodies of the packets numbered 1, ..., n. */
  function Assemble(ps: seq<Packet>, n: nat): seq<byte> {
    if n == 0 then [] else Assemble(ps, n - 1) + Body(Numbered(ps, n))
  }

  lemma {:induction false} NumberedFinds(ps: seq<Packet>, k: nat, p: Packet)
    requires p in ps && |p| >= HEADER && p[3] == k
    requires forall q | q in ps && |q| >= HEADER && q[3] == k :: q == p
    ensures Numbered(ps, k) == p
  {
    if ps[0] != p {
      assert ps == [ps[0]] + ps[1..];
      NumberedFinds(ps[1..], k, p);
    }
  }

  /** How much of a line the first `n` parts are. */
  function Reached(line: seq<byte>, mtu: nat, n: nat): (r: nat)
    requires mtu > 7
    ensures r <= |line|
  {
    Monotone(0, n, Room(mtu));
    Min(n * Room(mtu), |line|)
  }

  lemma {:induction false} PartsConcat(line: seq<byte>, mtu: nat, n: nat)
    requires mtu > 7 && line != [] && n < Total(|line|, mtu)
    ensures line[..Reached(line, mtu, n)] + Part(line, mtu, n + 1) == line[..Reached(line, mtu, n + 1)]
  {
    TotalCovers(|line|, mtu);
    Monotone(n, Total(|line|, mtu) - 1, Room(mtu));
    assert (n + 1) * Room(mtu) == n * Room(mtu) + Room(mtu);
  }

  lemma NoneReached(line: seq<byte>, mtu: nat)
    requires mtu > 7
    ensures Reached(line, mtu, 0) == 0
  {
  }

  lemma AllReached(line: seq<byte>, mtu: nat)
    requires mtu > 7 && line != []
    ensures Reached(line, mtu, Total(|line|, mtu)) == |line|
  {
    TotalCovers(|line|, mtu);
  }

  lemma {:induction false} AssembleTo(ps: seq<Packet>, line: seq<byte>, mtu: nat, n: nat)
    requires Carried(line, mtu) && |line| > Whole(mtu) && n <= Total(|line|, mtu)
    requires forall k | 1 <= k <= Total(|line|, mtu) :: Numbered(ps, k) == Fragment(line, mtu, k)
    ensures Assemble(ps, n) == line[..Reached(line, mtu, n)]
  {
    hide Part, Fragment, Total, Reached, Numbered;
    if n == 0 {
      NoneReached(line, mtu);
    } else {
      AssembleTo(ps, line, mtu, n - 1);
      PartsConcat(line, mtu, n - 1);
      FragmentShape(line, mtu, n);
    }
  }

  /** The fragments of a line, in whatever order they come, give back the line. */
  lemma AnyOrderReassembles(line: seq<byte>, mtu: nat, ps: seq<Packet>)
    requires Carried(line, mtu) && |line| > Whole(mtu)
    requires multiset(ps) == multiset(AllFragments(line, mtu))
    ensures Assemble(ps, Total(|line|, mtu)) == line
  {
    var t := Total(|line|, mtu);
    var fs := AllFragments(line, mtu);
    forall k | 1 <= k <= t ensures Numbered(ps, k) == Fragment(line, mtu, k) {
      assert fs[k - 1] == Fragment(line, mtu, k);
      FragmentShape(line, mtu, k);
      assert fs[k - 1] in multiset(fs);
      forall q | q in ps && |q| >= HEADER && q[3] == k ensures q == fs[k - 1] {
        assert q in multiset(ps);
        assert q in fs;
        var i :| 0 <= i < |fs| && fs[i] == q;
        FragmentShape(line, mtu, i + 1);
      }
      NumberedFinds(ps, k, fs[k - 1]);
    }
    AssembleTo(ps, line, mtu, t);
    AllReached(line, mtu);
    TakeAll(line);
  }

  // ---------------------------------------------------------------------------------------------
  // A stream of lines.
  // ---------------------------------------------------------------------------------------------

  /** A line and the MTU in force when it is sent. */
  datatype Message = Message(line: seq<byte>, mtu: nat)

  predicate Marked(p: Packet) {
    |p| >= 2 && p[0] == MARK && p[1] == MARK
  }

  /** A packet that reads like a fragment: two marks, a total that is not zero, and a number. */
  predicate LikeFragment(p: Packet) {
    Marked(p) && |p| >= HEADER && p[2] != 0
  }

  /** A carried line that cannot be taken for a fragment if it goes out whole. */
  predicate Unmistakable(m: Message) {
    Carried(m.line, m.mtu) && (|m.line| <= Whole(m.mtu) ==> !LikeFragment(m.line))
  }

  ghost predicate AllCarried(ms: seq<Message>) {
    forall i {:trigger ms[i]} | 0 <= i < |ms| :: Carried(ms[i].line, ms[i].mtu)
  }

  ghost predicate AllUnmistakable(ms: seq<Message>) {
    forall i {:trigger ms[i]} | 0 <= i < |ms| :: Unmistakable(ms[i])
  }

  ghost function Stream(ms: seq<Message>): seq<Packet>
    requires AllCarried(ms)
  {
    if ms == [] then [] else Packets(ms[0].line, ms[0].mtu) + Stream(ms[1..])
  }

  function LinesOf(ms: seq<Message>): seq<seq<byte>> {
    if ms == [] then [] else [ms[0].line] + LinesOf(ms[1..])
  }

  /** The receiver: it does not know the MTU. */
  function Decode(ps: seq<Packet>): seq<seq<byte>> {
    if ps == [] then [] else
      var p := ps[0];
      var t := if LikeFragment(p) then p[2] else 0;
      if 0 < t <= |ps| then
        [Assemble(ps[..t], t)] + Decode(ps[t..])
      else
        [p] + Decode(ps[1..])
  }

  lemma DecodeMessage(m: Message, rest: seq<Packet>)
    requires Unmistakable(m)
    ensures Decode(Packets(m.line, m.mtu) + rest) == [m.line] + Decode(rest)
  {
    var ps := Packets(m.line, m.mtu);
    SplitConcat(ps, rest);
    if |m.line| > Whole(m.mtu) {
      FragmentShape(m.line, m.mtu, 1);
      assert (ps + rest)[0] == ps[0] == Fragment(m.line, m.mtu, 1);
      AnyOrderReassembles(m.line, m.mtu, ps);
    }
  }

  /** In front of `rest`, the line is decoded and does no harm. */
  ghost predicate Survives(m: Message, rest: seq<Packet>)
    requires Carried(m.line, m.mtu)
  {
    Decode(Packets(m.line, m.mtu) + rest) == [m.line] + Decode(rest)
  }

  /** Lines of one byte. */
  function Tiny(n: nat): (ps: seq<Packet>)
    ensures |ps| == n && forall i | 0 <= i < n :: ps[i] == [0]
  {
    seq(n, i => [0])
  }

  lemma {:induction false} TinyDecodes(n: nat)
    ensures |Decode(Tiny(n))| == n
  {
    if n > 0 {
      TinyDecodes(n - 1);
      assert Tiny(n)[1..] == Tiny(n - 1);
      assert !LikeFragment([0]);
    }
  }

  /** A line like a fragment, sent whole, swallows as many packets as it seems to announce. */
  lemma {:induction false} LikeFragmentSwallows(m: Message)
    requires Carried(m.line, m.mtu) && |m.line| <= Whole(m.mtu) && LikeFragment(m.line)
    ensures !Survives(m, Tiny(m.line[2] - 1))
  {
    var p, t := m.line, m.line[2];
    var rest := Tiny(t - 1);
    var ps := [p] + rest;
    assert ps[0] == p && |ps| == t;
    TakeAll(ps);
    var none := ps[t..];
    assert |none| == 0;
    assert Decode(ps) == [Assemble(ps, t)] + Decode(none);
    TinyDecodes(t - 1);
    if t == 1 { ShorterBody(ps); }
  }

  lemma {:induction false} ShorterBody(ps: seq<Packet>)
    requires |ps| == 1 && |ps[0]| >= HEADER
    ensures |Assemble(ps, 1)| < |ps[0]|
  {
    var none := ps[1..];
    assert Numbered(none, 1) == [];
    assert Assemble(ps, 0) == [];
  }

  /** So a line is safe in front of everything exactly if it is not one of those. */
  lemma {:induction false} SurvivesIff(m: Message)
    requires Carried(m.line, m.mtu)
    ensures (forall rest :: Survives(m, rest)) <==> Unmistakable(m)
  {
    if Unmistakable(m) {
      forall rest ensures Survives(m, rest) { DecodeMessage(m, rest); }
    } else {
      LikeFragmentSwallows(m);
    }
  }

  /** The receiver gets back every stream of such lines. */
  lemma {:induction false} StreamRoundTrip(ms: seq<Message>)
    requires AllUnmistakable(ms)
    ensures Decode(Stream(ms)) == LinesOf(ms)
  {
    if ms != [] {
      StreamRoundTrip(ms[1..]);
      DecodeMessage(ms[0], Stream(ms[1..]));
    }
  }

  /** So the notifications determine the lines. */
  lemma StreamIsUnambiguous(ms: seq<Message>, ns: seq<Message>)
    requires AllUnmistakable(ms)
    requires AllUnmistakable(ns)
    requires Stream(ms) == Stream(ns)
    ensures LinesOf(ms) == LinesOf(ns)
  {
    StreamRoundTrip(ms);
    StreamRoundTrip(ns);
  }

  /** The fragments of a line, taken for lines themselves. */
  function AsMessages(ps: seq<Packet>, mtu: nat): (ms: seq<Message>)
    ensures |ms| == |ps|
    ensures forall i | 0 <= i < |ps| :: ms[i] == Message(ps[i], mtu)
  {
    seq(|ps|, i requires 0 <= i < |ps| => Message(ps[i], mtu))
  }

  lemma {:induction false} WholePackets(ps: seq<Packet>, mtu: nat)
    requires forall i | 0 <= i < |ps| :: Carried(ps[i], mtu) && |ps[i]| <= Whole(mtu)
    ensures Stream(AsMessages(ps, mtu)) == ps
  {
    if ps != [] {
      WholePackets(ps[1..], mtu);
      assert AsMessages(ps, mtu)[1..] == AsMessages(ps[1..], mtu);
      SplitFirst(ps);
    }
  }

  /** The restriction is needed: any long line goes out just like the list of its own fragments. */
  lemma MarkedLinesAreAmbiguous(line: seq<byte>, mtu: nat)
    requires Carried(line, mtu) && |line| > Whole(mtu)
    ensures var fs := AllFragments(line, mtu);
            && (forall i | 0 <= i < |fs| :: Carried(fs[i], mtu))
            && Stream([Message(line, mtu)]) == Stream(AsMessages(fs, mtu))
            && LinesOf([Message(line, mtu)]) != LinesOf(AsMessages(fs, mtu))
  {
    var fs := AllFragments(line, mtu);
    forall i | 0 <= i < |fs| ensures Carried(fs[i], mtu) && |fs[i]| <= Whole(mtu) {
      FragmentShape(line, mtu, i + 1);
      OneMoreThanRoom(fs[i], mtu);
    }
    WholePackets(fs, mtu);
    var one := [Message(line, mtu)];
    assert |one[1..]| == 0;
    Empty(fs);
    LinesLength(one);
    LinesLength(AsMessages(fs, mtu));
    FragmentShape(line, mtu, 1);
  }

  lemma {:induction false} LinesLength(ms: seq<Message>)
    ensures |LinesOf(ms)| == |ms|
  {
    if ms != [] { LinesLength(ms[1..]); }
  }

  lemma OneMoreThanRoom(p: Packet, mtu: nat)
    requires mtu > 7 && 1 <= |p| <= Whole(mtu)
    ensures Carried(p, mtu)
  {
  }

  // ---------------------------------------------------------------------------------------------
  // Whoever reads the stream.
  // ---------------------------------------------------------------------------------------------

  predicate GoesWhole(m: Message) {
    |m.line| <= Whole(m.mtu)
  }

  /** Lines that go out whole, and as which packets. */
  ghost predicate WholeLines(ms: seq<Message>, ps: seq<Packet>) {
    |ms| == |ps| && forall i {:trigger ms[i]} | 0 <= i < |ms| :: GoesWhole(ms[i]) && ms[i].line == ps[i]
  }

  /** Between `a` and `c` there are whole lines that are precisely the fragments of the long line of `m`. */
  ghost predicate Forges(ms: seq<Message>, a: seq<Message>, block: seq<Message>, c: seq<Message>, m: Message) {
    && ms == a + block + c && Carried(m.line, m.mtu) && !GoesWhole(m)
    && WholeLines(block, AllFragments(m.line, m.mtu))
  }

  ghost predicate Forged(ms: seq<Message>) {
    exists a, block, c, m :: Forges(ms, a, block, c, m)
  }

  ghost predicate SomeLong(ms: seq<Message>) {
    exists i {:trigger ms[i]} | 0 <= i < |ms| :: !GoesWhole(ms[i])
  }

  lemma {:induction false} LaterForgery(ms: seq<Message>)
    requires ms != []
    ensures Forged(ms[1..]) ==> Forged(ms)
    ensures SomeLong(ms[1..]) ==> SomeLong(ms)
  {
    hide WholeLines, Carried, GoesWhole;
    if Forged(ms[1..]) {
      var a, block, c, m :| Forges(ms[1..], a, block, c, m);
      SplitFirst(ms);
      Assoc([ms[0]], a + block, c);
      Assoc([ms[0]], a, block);
      assert Forges(ms, [ms[0]] + a, block, c, m);
    }
    if SomeLong(ms[1..]) {
      var i :| 0 <= i < |ms[1..]| && !GoesWhole(ms[1..][i]);
      assert !GoesWhole(ms[i + 1]);
    }
  }

  lemma {:induction false} PacketsBegin(m: Message)
    requires Carried(m.line, m.mtu)
    ensures var ps := Packets(m.line, m.mtu);
            && ps != []
            && (GoesWhole(m) ==> ps == [m.line])
            && (!GoesWhole(m) ==> |ps| == Total(|m.line|, m.mtu) && ps == AllFragments(m.line, m.mtu) && |ps[0]| >= HEADER
                                  && ps[0][2] == |ps| && ps[0][3] == 1)
  {
    if !GoesWhole(m) { FragmentShape(m.line, m.mtu, 1); }
  }

  /** A packet with a number other than one. */
  predicate NotFirst(p: Packet) {
    |p| >= HEADER && p[3] != 1
  }

  lemma {:induction false} WholeFirst(ms: seq<Message>, p: Packet, rest: seq<Packet>)
    requires AllCarried(ms) && Stream(ms) == [p] + rest
    requires ms != [] && GoesWhole(ms[0])
    ensures ms[0].line == p && AllCarried(ms[1..]) && Stream(ms[1..]) == rest
  {
    StreamBegins(ms);
    PacketsBegin(ms[0]);
    SplitConcat([ms[0].line], Stream(ms[1..]));
    SplitConcat([p], rest);
    assert ([ms[0].line] + Stream(ms[1..]))[0] == ms[0].line && ([p] + rest)[0] == p;
  }

  lemma {:induction false} NotFirstIsWhole(ms: seq<Message>, p: Packet, rest: seq<Packet>)
    requires AllCarried(ms) && Stream(ms) == [p] + rest && NotFirst(p)
    ensures ms != [] && GoesWhole(ms[0])
  {
    StreamBegins(ms);
    PacketsBegin(ms[0]);
    var ps := Packets(ms[0].line, ms[0].mtu);
    assert (ps + Stream(ms[1..]))[0] == ps[0] && ([p] + rest)[0] == p;
  }

  /** Packets that are not the first of a line can only have gone out as whole lines. */
  lemma {:induction false} SentWhole(ms: seq<Message>, fs: seq<Packet>, rest: seq<Packet>)
      returns (block: seq<Message>, c: seq<Message>)
    requires AllCarried(ms) && Stream(ms) == fs + rest
    requires forall i {:trigger fs[i]} | 0 <= i < |fs| :: NotFirst(fs[i])
    ensures ms == block + c && WholeLines(block, fs)
    decreases |fs|
  {
    if fs == [] {
      block, c := [], ms;
    } else {
      hide NotFirst, GoesWhole, Carried;
      var p, more := fs[0], fs[1..] + rest;
      SplitFirst(fs);
      Assoc([p], fs[1..], rest);
      NotFirstIsWhole(ms, p, more);
      WholeFirst(ms, p, more);
      block, c := SentWhole(ms[1..], fs[1..], rest);
      Attached(ms, block, c, fs);
      block := [ms[0]] + block;
    }
  }

  lemma {:induction false} Attached(ms: seq<Message>, block: seq<Message>, c: seq<Message>, fs: seq<Packet>)
    requires ms != [] && fs != [] && ms[1..] == block + c && WholeLines(block, fs[1..])
    requires GoesWhole(ms[0]) && ms[0].line == fs[0]
    ensures ms == ([ms[0]] + block) + c && WholeLines([ms[0]] + block, fs)
  {
    hide GoesWhole;
    SplitFirst(ms);
    SplitFirst(fs);
    Assoc([ms[0]], block, c);
    var all := [ms[0]] + block;
    forall i | 0 <= i < |all| ensures GoesWhole(all[i]) && all[i].line == fs[i] {
      if i > 0 { assert all[i] == block[i - 1]; }
    }
  }

  lemma {:induction false} LaterFragments(n: Message, i: nat)
    requires Carried(n.line, n.mtu) && !GoesWhole(n) && 0 < i < Total(|n.line|, n.mtu)
    ensures NotFirst(AllFragments(n.line, n.mtu)[i])
  {
    FragmentShape(n.line, n.mtu, i + 1);
  }

  lemma {:induction false} ForgedAtHead(ms: seq<Message>, n: Message, rest: seq<Packet>)
    requires AllCarried(ms) && Carried(n.line, n.mtu) && !GoesWhole(n) && ms != []
    ensures GoesWhole(ms[0]) && Stream(ms) == Packets(n.line, n.mtu) + rest ==> Forged(ms)
  {
    if GoesWhole(ms[0]) && Stream(ms) == Packets(n.line, n.mtu) + rest {
      PacketsBegin(n);
      var fs := AllFragments(n.line, n.mtu);
      forall i | 0 <= i < |fs[1..]| ensures NotFirst(fs[1..][i]) {
        LaterFragments(n, i + 1);
      }
      hide AllFragments, Packets, Carried, GoesWhole, NotFirst;
      SplitFirst(fs);
      Assoc([fs[0]], fs[1..], rest);
      WholeFirst(ms, fs[0], fs[1..] + rest);
      var block, c := SentWhole(ms[1..], fs[1..], rest);
      Attached(ms, block, c, fs);
      block := [ms[0]] + block;
      Empty(block);
      assert Forges(ms, [], block, c, n);
    }
  }

  /** Two long lines whose fragments begin a stream are the same line. */
  lemma {:induction false} SameLong(m: Message, n: Message, a: seq<Packet>, b: seq<Packet>)
    requires Carried(m.line, m.mtu) && Carried(n.line, n.mtu) && !GoesWhole(m) && !GoesWhole(n)
    requires Packets(m.line, m.mtu) + a == Packets(n.line, n.mtu) + b
    ensures m.line == n.line && a == b
  {
    var ps, qs := Packets(m.line, m.mtu), Packets(n.line, n.mtu);
    PacketsBegin(m);
    PacketsBegin(n);
    assert (ps + a)[0] == ps[0] && (qs + b)[0] == qs[0];
    SplitConcat(ps, a);
    SplitConcat(qs, b);
    AnyOrderReassembles(m.line, m.mtu, ps);
    AnyOrderReassembles(n.line, n.mtu, qs);
  }

  lemma {:induction false} SameHead(ms: seq<Message>, ns: seq<Message>)
    requires AllCarried(ms) && AllCarried(ns) && ms != [] && ns != []
    ensures Stream(ms) == Stream(ns) ==>
              || (ms[0].line == ns[0].line && Stream(ms[1..]) == Stream(ns[1..]))
              || Forged(ms)
              || (!GoesWhole(ms[0]) && Forged(ns))
  {
    hide Packets, Forged, GoesWhole, Stream;
    var m, n := ms[0], ns[0];
    StreamBegins(ms);
    StreamBegins(ns);
    if Stream(ms) == Stream(ns) {
      if GoesWhole(m) && GoesWhole(n) {
        PacketsBegin(m);
        PacketsBegin(n);
        SplitConcat([m.line], Stream(ms[1..]));
        SplitConcat([n.line], Stream(ns[1..]));
      } else if GoesWhole(m) {
        ForgedAtHead(ms, n, Stream(ns[1..]));
      } else if GoesWhole(n) {
        ForgedAtHead(ns, m, Stream(ms[1..]));
      } else {
        SameLong(m, n, Stream(ms[1..]), Stream(ns[1..]));
      }
    }
  }

  lemma StreamBegins(ms: seq<Message>)
    requires AllCarried(ms) && ms != []
    ensures AllCarried(ms[1..]) && Stream(ms) == Packets(ms[0].line, ms[0].mtu) + Stream(ms[1..])
    ensures |Stream(ms)| > 0
  {
    PacketsBegin(ms[0]);
  }

  /** Two readings of one stream differ only over a forgery, in one or in the other. */
  lemma {:induction false} OnlyForgeriesDiffer(ms: seq<Message>, ns: seq<Message>)
    requires AllCarried(ms) && AllCarried(ns)
    ensures Stream(ms) == Stream(ns) ==> LinesOf(ms) == LinesOf(ns) || Forged(ms) || (SomeLong(ms) && Forged(ns))
  {
    hide Packets, Forged, GoesWhole;
    if ms != [] { StreamBegins(ms); }
    if ns != [] { StreamBegins(ns); }
    if ms != [] && ns != [] {
      SameHead(ms, ns);
      LaterForgery(ms);
      LaterForgery(ns);
      if Stream(ms[1..]) == Stream(ns[1..]) { OnlyForgeriesDiffer(ms[1..], ns[1..]); }
    }
  }

  lemma {:induction false} StreamConcat(ms: seq<Message>, ns: seq<Message>)
    requires AllCarried(ms) && AllCarried(ns)
    ensures AllCarried(ms + ns) && Stream(ms + ns) == Stream(ms) + Stream(ns)
  {
    hide Packets, Carried;
    if ms == [] {
      Empty(ns);
      Empty(Stream(ns));
    } else {
      assert (ms + ns)[1..] == ms[1..] + ns && (ms + ns)[0] == ms[0];
      StreamConcat(ms[1..], ns);
      Assoc(Packets(ms[0].line, ms[0].mtu), Stream(ms[1..]), Stream(ns));
    }
  }

  /** Some of the messages of a stream exchanged for others that go out the same way. */
  lemma {:induction false} Exchanged(ms: seq<Message>, a: seq<Message>, block: seq<Message>, c: seq<Message>,
      ns: seq<Message>)
    requires AllCarried(ms) && AllCarried(ns) && ms == a + block + c && AllCarried(block) && |ns| != |block|
    ensures Stream(ns) == Stream(block) ==> Ambiguous(ms)
  {
    hide Carried, Stream;
    var os := a + ns + c;
    assert AllCarried(a) by {
      forall i | 0 <= i < |a| ensures Carried(a[i].line, a[i].mtu) { assert a[i] == ms[i]; }
    }
    assert AllCarried(c) by {
      forall i | 0 <= i < |c| ensures Carried(c[i].line, c[i].mtu) { assert c[i] == ms[|a + block| + i]; }
    }
    hide AllCarried;
    StreamConcat(a, ns);
    StreamConcat(a + ns, c);
    StreamConcat(a, block);
    StreamConcat(a + block, c);
    LinesLength(os);
    LinesLength(ms);
    assert LinesOf(os) != LinesOf(ms);
  }

  lemma {:induction false} StreamOfOne(m: Message)
    requires Carried(m.line, m.mtu)
    ensures AllCarried([m]) && Stream([m]) == Packets(m.line, m.mtu)
  {
    var one := [m];
    StreamBegins(one);
    assert |one[1..]| == 0;
    Empty(Packets(m.line, m.mtu));
  }

  lemma {:induction false} WholeStream(ms: seq<Message>, ps: seq<Packet>)
    requires AllCarried(ms) && WholeLines(ms, ps)
    ensures Stream(ms) == ps
  {
    if ms != [] {
      hide Carried, GoesWhole;
      StreamBegins(ms);
      assert GoesWhole(ms[0]) && ms[0].line == ps[0];
      PacketsBegin(ms[0]);
      WholeStream(ms[1..], ps[1..]);
      SplitFirst(ps);
    }
  }

  /** A stream carries another list of lines as well. */
  ghost predicate Ambiguous(ms: seq<Message>)
    requires AllCarried(ms)
  {
    exists ns :: AllCarried(ns) && Stream(ns) == Stream(ms) && LinesOf(ns) != LinesOf(ms)
  }

  lemma {:induction false} BlockCarried(ms: seq<Message>, a: seq<Message>, block: seq<Message>, c: seq<Message>)
    requires AllCarried(ms) && ms == a + block + c
    ensures AllCarried(block)
  {
    forall i | 0 <= i < |block| ensures Carried(block[i].line, block[i].mtu) {
      assert block[i] == ms[|a| + i];
    }
  }

  lemma TwoOrMore(m: Message)
    requires Carried(m.line, m.mtu) && !GoesWhole(m)
    ensures |AllFragments(m.line, m.mtu)| >= 2
  {
    FragmentShape(m.line, m.mtu, 1);
  }

  lemma {:induction false} ForgedIsAmbiguous(ms: seq<Message>)
    requires AllCarried(ms)
    ensures Forged(ms) ==> Ambiguous(ms)
  {
    hide AllFragments, Carried, Stream, Ambiguous, Packets;
    if Forged(ms) {
      var a, block, c, m :| Forges(ms, a, block, c, m);
      BlockCarried(ms, a, block, c);
      WholeStream(block, AllFragments(m.line, m.mtu));
      StreamOfOne(m);
      PacketsBegin(m);
      TwoOrMore(m);
      Exchanged(ms, a, block, c, [m]);
    }
  }

  lemma {:induction false} LongIsAmbiguous(ms: seq<Message>)
    requires AllCarried(ms) && SomeLong(ms)
    ensures Ambiguous(ms)
  {
    var i :| 0 <= i < |ms| && !GoesWhole(ms[i]);
    var m := ms[i];
    assert Carried(m.line, m.mtu);
    hide AllFragments, Carried, Stream, Ambiguous, Packets;
    var fs := AllFragments(m.line, m.mtu);
    MarkedLinesAreAmbiguous(m.line, m.mtu);
    TwoOrMore(m);
    assert AllCarried([m]);
    assert ms == ms[..i] + [m] + ms[i + 1..];
    Exchanged(ms, ms[..i], [m], ms[i + 1..], AsMessages(fs, m.mtu));
  }

  /**
    Whoever reads the stream: it carries another list of lines as well exactly if some line was
    fragmented, since its fragments could be lines, or some lines are precisely the fragments of one.
  */
  lemma {:induction false} AmbiguousIff(ms: seq<Message>)
    requires AllCarried(ms)
    ensures Ambiguous(ms) <==> SomeLong(ms) || Forged(ms)
  {
    hide Forged, SomeLong;
    if ns :| AllCarried(ns) && Stream(ns) == Stream(ms) && LinesOf(ns) != LinesOf(ms) {
      OnlyForgeriesDiffer(ms, ns);
    }
    ForgedIsAmbiguous(ms);
    if SomeLong(ms) { LongIsAmbiguous(ms); }
  }

  // ---------------------------------------------------------------------------------------------
  // The 8-bit counters.
  // ---------------------------------------------------------------------------------------------

  /** What the loop over `current <= total` did in some number of rounds: the numbers sent, and
      whether it had ended. */
  datatype Rounds = Rounds(numbers: seq<byte>, ended: bool)

  function Loop(total: byte, current: byte, rounds: nat): Rounds
    decreases rounds
  {
    if current > total then Rounds([], true)
    else if rounds == 0 then Rounds([], false)
    else
      var r := Loop(total, (current + 1) % 256, rounds - 1);
      Rounds([current] + r.numbers, r.ended)
  }

  lemma {:induction false} LoopNumbers(total: byte, current: byte, rounds: nat)
    requires total < 255 && 1 <= current <= total + 1
    ensures var r := Loop(total, current, rounds);
            && r.ended == (rounds >= total + 1 - current)
            && (r.ended ==> |r.numbers| == total + 1 - current
                            && forall i | 0 <= i < |r.numbers| :: r.numbers[i] == current + i)
    decreases rounds
  {
    if current <= total && rounds > 0 {
      LoopNumbers(total, current + 1, rounds - 1);
    }
  }

  lemma {:induction false} LoopForever(current: byte, rounds: nat)
    ensures !Loop(255, current, rounds).ended
    decreases rounds
  {
    if rounds > 0 { LoopForever((current + 1) % 256, rounds - 1); }
  }

  /** With 8-bit counters the loop ends having numbered all fragments exactly if they are at most 254. */
  lemma {:induction false} CountersSuffice(total: nat)
    ensures (exists rounds :: Loop(total % 256, 1, rounds).ended && |Loop(total % 256, 1, rounds).numbers| == total)
            <==> total <= 254
  {
    hide Loop;
    var t: byte := total % 256;
    if total <= 254 {
      LoopNumbers(t, 1, total);
      assert Loop(t, 1, total).ended;
    } else {
      forall rounds: nat ensures !(Loop(t, 1, rounds).ended && |Loop(t, 1, rounds).numbers| == total) {
        if t == 255 { LoopForever(1, rounds); } else { LoopNumbers(t, 1, rounds); }
      }
    }
  }

  // ---------------------------------------------------------------------------------------------
  // The sending loop.
  // ---------------------------------------------------------------------------------------------

  method Memcpy(dst: array<byte>, at: nat, src: array<byte>, from: nat, n: nat)
    requires dst != src && at + n <= dst.Length && from + n <= src.Length
    modifies dst
    ensures dst[at..at + n] == src[from..from + n]
    ensures dst[..at] == old(dst[..at])
  {
    for i := 0 to n
      invariant dst[at..at + i] == src[from..from + i]
      invariant dst[..at] == old(dst[..at])
    {
      dst[at + i] := src[from + i];
    }
  }

  method FillFragment(buffer: array<byte>, temp: array<byte>, total: byte, current: byte, from: nat, n: nat)
    requires buffer != temp && HEADER + n <= buffer.Length && from + n <= temp.Length
    modifies buffer
    ensures buffer[..HEADER + n] == [MARK, MARK, total, current] + temp[from..from + n]
  {
    buffer[0] := MARK;
    buffer[1] := MARK;
    buffer[2] := total;
    buffer[3] := current;
    Memcpy(buffer, HEADER, temp, from, n);
    assert buffer[..HEADER + n] == buffer[..HEADER] + buffer[HEADER..HEADER + n];
  }

  /** Forwarding the line in the buffer; without memory for a long one the link task ends. */
  method Forward(temp: array<byte>, linesize: int, mtu: nat, memory: bool) returns (sent: seq<Packet>, alive: bool)
    requires temp.Length == UPLINK_BUFSIZE
    requires 0 < linesize <= UPLINK_BUFSIZE ==> Carried(temp[..linesize], mtu)
    ensures alive <==> !(0 < linesize <= UPLINK_BUFSIZE && linesize > Whole(mtu) && !memory)
    ensures sent == if alive && 0 < linesize <= UPLINK_BUFSIZE then Packets(temp[..linesize], mtu) else []
  {
    sent, alive := [], true;
    if 0 < linesize <= UPLINK_BUFSIZE {
      if linesize <= mtu - 3 {
        sent := [temp[..linesize]];
      } else {
        if !memory {
          return [], false;
        }
        sent := SendFragments(temp, linesize, mtu);
      }
    }
  }

  method SendFragments(temp: array<byte>, linesize: nat, mtu: nat) returns (sent: seq<Packet>)
    requires 0 < linesize <= temp.Length && linesize > Whole(mtu)
    requires Carried(temp[..linesize], mtu)
    ensures sent == AllFragments(temp[..linesize], mtu)
  {
    ghost var line := temp[..linesize];
    var total: byte := if linesize % (mtu - 7) == 0 then linesize / (mtu - 7) else linesize / (mtu - 7) + 1;
    var current: byte := 1;
    var buffer := new byte[mtu - 3];
    sent := [];
    while current <= total
      invariant 1 <= current <= total + 1
      invariant temp[..linesize] == line
      invariant sent == FragmentsTo(line, mtu, current - 1)
      decreases total + 1 - current
    {
      PartEnds(linesize, mtu, current);
      var from := (current - 1) * (mtu - 7);
      var n := if current < total then mtu - 7 else linesize - from;
      FillFragment(buffer, temp, total, current, from, n);
      assert temp[from..from + n] == Part(line, mtu, current);
      sent := sent + [buffer[..HEADER + n]];
      current := (current + 1) % 256;
    }
  }
}
