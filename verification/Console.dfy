/** The two byte queues of the console and the loops that move lines through them. */
module Console {
  import opened Fragments
  import opened Queues
  import opened Seqs

  const NUL: byte := 0
  const NEWLINE: byte := 10

  /** The bytes that count as text: a zero byte only ends a line. */
  function Text(s: seq<byte>): seq<byte> {
    if s == [] then [] else
      Text(s[..|s| - 1]) + (if s[|s| - 1] == NUL then [] else [s[|s| - 1]])
  }

  lemma {:induction false} TextSnoc(s: seq<byte>, b: byte)
    ensures Text(s + [b]) == if b == NUL then Text(s) else Text(s) + [b]
  {
  }

  lemma {:induction false} TextConcat(a: seq<byte>, b: seq<byte>)
    ensures Text(a + b) == Text(a) + Text(b)
  {
    if b == [] {
      Empty(a);
      Empty(Text(a));
    } else {
      var p, x := b[..|b| - 1], b[|b| - 1];
      TextConcat(a, p);
      ConcatLast(a, b);
      TextSnoc(a + p, x);
      TextSnoc(p, x);
      SplitLast(b);
      Assoc(Text(a), Text(p), [x]);
    }
  }

  lemma {:induction false} TextCons(b: byte, s: seq<byte>)
    ensures Text([b] + s) == if b == NUL then Text(s) else [b] + Text(s)
  {
    var one := [b];
    assert |one[..0]| == 0;
    TextConcat(one, s);
    Empty(Text(s));
  }

  function Concat(ss: seq<seq<byte>>): seq<byte> {
    if ss == [] then [] else ss[0] + Concat(ss[1..])
  }

  lemma {:induction false} ConcatSnoc(ss: seq<seq<byte>>, s: seq<byte>)
    ensures Concat(ss + [s]) == Concat(ss) + s
  {
    if ss == [] {
      var one := ss + [s];
      assert |one[1..]| == 0 && one[0] == s;
      Empty(s);
    } else {
      ConcatSnoc(ss[1..], s);
      assert (ss + [s])[1..] == ss[1..] + [s];
      Assoc(ss[0], Concat(ss[1..]), s);
    }
  }

  // ---------------------------------------------------------------------------------------------
  // Taking one line.
  // ---------------------------------------------------------------------------------------------

  /** A line taken, what is left in the queue, and how often a byte was waited for. */
  datatype Read = Read(line: seq<byte>, rest: seq<byte>, waits: nat)

  /**
    Taking at most `room` bytes from a queue into which others put `arrivals[i]` during the i-th
    wait. A wait fails if the queue is still empty; that, a zero byte, or a newline ends the line.
  */
  function TakeLine(queue: seq<byte>, arrivals: seq<seq<byte>>, room: nat): Read
    requires room <= |arrivals|
    decreases room
  {
    if room == 0 then Read([], queue, 0) else
      var q := queue + arrivals[0];
      if q == [] then Read([], q, 1)
      else if q[0] == NUL then Read([], q[1..], 1)
      else if q[0] == NEWLINE then Read([NEWLINE], q[1..], 1)
      else
        var r := TakeLine(q[1..], arrivals[1..], room - 1);
        Read([q[0]] + r.line, r.rest, r.waits + 1)
  }

  ghost predicate IsLine(s: seq<byte>) {
    forall i | 0 <= i < |s| :: s[i] != NUL && (s[i] == NEWLINE ==> i == |s| - 1)
  }

  /** The line has its newline, if any, at its end, and fits the buffer. */
  lemma {:induction false} LineShape(queue: seq<byte>, arrivals: seq<seq<byte>>, room: nat)
    requires room <= |arrivals|
    ensures var r := TakeLine(queue, arrivals, room);
            IsLine(r.line) && |r.line| <= room && |r.line| <= r.waits <= room
    decreases room
  {
    var q := queue + (if room == 0 then [] else arrivals[0]);
    if room > 0 && q != [] && q[0] != NUL && q[0] != NEWLINE {
      LineShape(q[1..], arrivals[1..], room - 1);
    }
  }

  /** What was queued or arrived, as text, is the line and then what is left. */
  lemma {:induction false} LineConserves(queue: seq<byte>, arrivals: seq<seq<byte>>, room: nat)
    requires room <= |arrivals|
    ensures var r := TakeLine(queue, arrivals, room);
            r.waits <= |arrivals| && Text(queue + Concat(arrivals[..r.waits])) == r.line + Text(r.rest)
    decreases room
  {
    if room == 0 {
      NoArrivals(queue, arrivals);
    } else {
      var q := queue + arrivals[0];
      if q == [] || q[0] == NUL || q[0] == NEWLINE {
        LastWait(queue, arrivals, room);
      } else {
        LineConserves(q[1..], arrivals[1..], room - 1);
        LineGoesOn(queue, arrivals, room);
      }
    }
  }

  lemma {:induction false} LastWait(queue: seq<byte>, arrivals: seq<seq<byte>>, room: nat)
    requires 0 < room <= |arrivals|
    requires var q := queue + arrivals[0]; q == [] || q[0] == NUL || q[0] == NEWLINE
    ensures var r := TakeLine(queue, arrivals, room);
            r.waits == 1 && Text(queue + Concat(arrivals[..1])) == r.line + Text(r.rest)
  {
    var q := queue + arrivals[0];
    FirstArrival(queue, arrivals, 1);
    if q != [] {
      SplitFirst(q);
      TextCons(q[0], q[1..]);
    }
  }

  lemma {:induction false} LineGoesOn(queue: seq<byte>, arrivals: seq<seq<byte>>, room: nat)
    requires 0 < room <= |arrivals|
    requires var q := queue + arrivals[0]; q != [] && q[0] != NUL && q[0] != NEWLINE
    requires var r := TakeLine((queue + arrivals[0])[1..], arrivals[1..], room - 1);
             r.waits <= |arrivals[1..]| &&
             Text((queue + arrivals[0])[1..] + Concat(arrivals[1..][..r.waits])) == r.line + Text(r.rest)
    ensures var r := TakeLine(queue, arrivals, room);
            r.waits <= |arrivals| && Text(queue + Concat(arrivals[..r.waits])) == r.line + Text(r.rest)
  {
    var q := queue + arrivals[0];
    var r := TakeLine(q[1..], arrivals[1..], room - 1);
    FirstArrival(queue, arrivals, r.waits + 1);
    TailConserves(q, arrivals[1..], r.waits);
    Assoc([q[0]], r.line, Text(r.rest));
  }

  lemma {:induction false} NoArrivals(queue: seq<byte>, arrivals: seq<seq<byte>>)
    ensures Text(queue + Concat(arrivals[..0])) == Text(queue)
  {
    assert |arrivals[..0]| == 0;
    Empty(queue);
  }

  lemma {:induction false} FirstArrival(queue: seq<byte>, arrivals: seq<seq<byte>>, n: nat)
    requires 1 <= n <= |arrivals|
    ensures queue + Concat(arrivals[..n]) == queue + arrivals[0] + Concat(arrivals[1..][..n - 1])
    ensures n == 1 ==> queue + Concat(arrivals[..n]) == queue + arrivals[0]
  {
    var a := arrivals[..n];
    assert a[0] == arrivals[0] && a[1..] == arrivals[1..][..n - 1];
    Assoc(queue, arrivals[0], Concat(a[1..]));
    if n == 1 {
      assert |a[1..]| == 0;
      Empty(queue + arrivals[0]);
    }
  }

  lemma {:induction false} TailConserves(q: seq<byte>, arrivals: seq<seq<byte>>, n: nat)
    requires q != [] && q[0] != NUL && n <= |arrivals|
    ensures Text(q + Concat(arrivals[..n])) == [q[0]] + Text(q[1..] + Concat(arrivals[..n]))
  {
    SplitFirst(q);
    Assoc([q[0]], q[1..], Concat(arrivals[..n]));
    TextCons(q[0], q[1..] + Concat(arrivals[..n]));
  }

  /** The line ends, all of it taken from the front, at a full buffer, a newline or an empty queue, or
      else at a zero byte, which is swallowed. */
  ghost predicate EndsRightly(total: seq<byte>, r: Read, room: nat) {
    || (total == r.line + r.rest
        && (|r.line| == room || (r.line != [] && r.line[|r.line| - 1] == NEWLINE)
            || (r.rest == [] && r.waits == |r.line| + 1)))
    || total == r.line + [NUL] + r.rest
  }

  lemma EndsOneLater(b: byte, total: seq<byte>, r: Read, room: nat)
    requires EndsRightly(total, r, room)
    ensures EndsRightly([b] + total, Read([b] + r.line, r.rest, r.waits + 1), room + 1)
  {
    Assoc([b], r.line, r.rest);
    Assoc([b], r.line + [NUL], r.rest);
    Assoc([b], r.line, [NUL]);
  }

  /** No line ends early and no byte is skipped. */
  lemma {:induction false} LineIsExact(queue: seq<byte>, arrivals: seq<seq<byte>>, room: nat)
    requires room <= |arrivals|
    ensures var r := TakeLine(queue, arrivals, room);
            r.waits <= |arrivals| && EndsRightly(queue + Concat(arrivals[..r.waits]), r, room)
    decreases room
  {
    if room == 0 {
      assert |arrivals[..0]| == 0;
      Empty(queue);
    } else {
      var q := queue + arrivals[0];
      if q == [] || q[0] == NUL || q[0] == NEWLINE {
        FirstArrival(queue, arrivals, 1);
        if q != [] {
          SplitFirst(q);
        }
      } else {
        var r := TakeLine(q[1..], arrivals[1..], room - 1);
        LineIsExact(q[1..], arrivals[1..], room - 1);
        FirstArrival(queue, arrivals, r.waits + 1);
        SplitFirst(q);
        Assoc([q[0]], q[1..], Concat(arrivals[1..][..r.waits]));
        EndsOneLater(q[0], q[1..] + Concat(arrivals[1..][..r.waits]), r, room - 1);
      }
    }
  }

  // ---------------------------------------------------------------------------------------------
  // Many lines.
  // ---------------------------------------------------------------------------------------------

  /** One call: the size of the caller's buffer, and what arrives while it waits. */
  datatype Call = Call(size: nat, arrivals: seq<seq<byte>>)

  ghost predicate Enough(calls: seq<Call>) {
    forall i {:trigger calls[i]} | 0 <= i < |calls| :: calls[i].size <= |calls[i].arrivals|
  }

  /** The lines of successive calls, everything that arrived, and what is left. */
  datatype Reads = Reads(lines: seq<seq<byte>>, arrived: seq<byte>, rest: seq<byte>)

  ghost function TakeLines(queue: seq<byte>, calls: seq<Call>): Reads
    requires Enough(calls)
  {
    if calls == [] then Reads([], [], queue) else
      var n := |calls| - 1;
      var rs := TakeLines(queue, calls[..n]);
      var r := TakeLine(rs.rest, calls[n].arrivals, calls[n].size);
      LineShape(rs.rest, calls[n].arrivals, calls[n].size);
      Reads(rs.lines + [r.line], rs.arrived + Concat(calls[n].arrivals[..r.waits]), r.rest)
  }

  /** The lines that successive calls return are the text that went in, cut into lines. */
  lemma {:induction false} LinesAreTheText(queue: seq<byte>, calls: seq<Call>)
    requires Enough(calls)
    ensures var rs := TakeLines(queue, calls);
            Text(queue + rs.arrived) == Concat(rs.lines) + Text(rs.rest)
  {
    if calls == [] {
      Empty(queue);
      Empty(Text(queue));
    } else {
      var n := |calls| - 1;
      LinesAreTheText(queue, calls[..n]);
      OneMoreLine(queue, TakeLines(queue, calls[..n]), calls[n]);
    }
  }

  lemma {:induction false} OneMoreLine(queue: seq<byte>, rs: Reads, call: Call)
    requires call.size <= |call.arrivals|
    requires Text(queue + rs.arrived) == Concat(rs.lines) + Text(rs.rest)
    ensures var r := TakeLine(rs.rest, call.arrivals, call.size);
            r.waits <= |call.arrivals| &&
            Text(queue + (rs.arrived + Concat(call.arrivals[..r.waits]))) == Concat(rs.lines + [r.line]) + Text(r.rest)
  {
    var r := TakeLine(rs.rest, call.arrivals, call.size);
    LineConserves(rs.rest, call.arrivals, call.size);
    var more := Concat(call.arrivals[..r.waits]);
    Assoc(queue, rs.arrived, more);
    TextConcat(queue + rs.arrived, more);
    TextConcat(rs.rest, more);
    ConcatSnoc(rs.lines, r.line);
    Assoc(Concat(rs.lines), Text(rs.rest), Text(more));
    Assoc(Concat(rs.lines), r.line, Text(r.rest));
  }

  // ---------------------------------------------------------------------------------------------
  // The loops.
  // ---------------------------------------------------------------------------------------------

  /** What other tasks put into a queue while this one waits. */
  method Arrive(queue: Queue<byte>, bytes: seq<byte>)
    modifies queue`items
    ensures queue.items == old(queue.items) + bytes
  {
    queue.items := queue.items + bytes;
  }

  /** The state of a line being taken after `i` bytes. */
  ghost predicate Taking(start: seq<byte>, arrivals: seq<seq<byte>>, size: nat, i: nat, now: seq<byte>, data: seq<byte>)
    requires size <= |arrivals|
  {
    && i <= size && i <= |data|
    && var r := TakeLine(start, arrivals, size);
       var s := TakeLine(now, arrivals[i..], size - i);
       r == Read(data[..i] + s.line, s.rest, i + s.waits)
  }

  lemma {:induction false} TakingStarts(start: seq<byte>, arrivals: seq<seq<byte>>, size: nat, data: seq<byte>)
    requires size <= |arrivals|
    ensures Taking(start, arrivals, size, 0, start, data)
  {
  }

  lemma {:induction false} TakingGoesOn(start: seq<byte>, arrivals: seq<seq<byte>>, size: nat, i: nat,
      now: seq<byte>, data: seq<byte>, data': seq<byte>)
    requires size <= |arrivals| && i < size && i < |data| == |data'|
    requires Taking(start, arrivals, size, i, now, data)
    requires var q := now + arrivals[i];
             q != [] && q[0] != NUL && q[0] != NEWLINE && data' == data[i := q[0]]
    ensures Taking(start, arrivals, size, i + 1, (now + arrivals[i])[1..], data')
  {
  }

  /** Reading a line into the caller's buffer; -1 if there was nothing to read. */
  method GetLine(queue: Queue<byte>, data: array<byte>, size: nat, arrivals: seq<seq<byte>>) returns (count: int)
    requires size <= data.Length && size <= |arrivals|
    modifies queue`items, data
    ensures var r := TakeLine(old(queue.items), arrivals, size);
            && queue.items == r.rest
            && count == (if r.line == [] then -1 else |r.line|)
            && |r.line| <= data.Length && data[..|r.line|] == r.line
  {
    count := Collect(queue, data, size, arrivals);
    if count == 0 {
      count := -1;
    }
  }

  /** The loop that `GetLine` and the link's reader share. */
  method Collect(queue: Queue<byte>, data: array<byte>, size: nat, arrivals: seq<seq<byte>>) returns (count: nat)
    requires size <= data.Length && size <= |arrivals|
    modifies queue`items, data
    ensures var r := TakeLine(old(queue.items), arrivals, size);
            queue.items == r.rest && count == |r.line| <= data.Length && data[..count] == r.line
  {
    ghost var start := queue.items;
    TakingStarts(start, arrivals, size, data[..]);
    var i := 0;
    while i < size
      invariant i <= size
      invariant Taking(start, arrivals, size, i, queue.items, data[..])
    {
      ghost var now, before := queue.items, data[..];
      assert arrivals[i..][0] == arrivals[i];
      Arrive(queue, arrivals[i]);
      if queue.items == [] {
        break;
      }
      ghost var q := queue.items;
      var b := queue.items[0];
      queue.items := queue.items[1..];
      if b == NUL {
        break;
      }
      data[i] := b;
      if b == NEWLINE {
        i := i + 1;
        break;
      }
      TakingGoesOn(start, arrivals, size, i, now, before, data[..]);
      i := i + 1;
    }
    count := i;
  }

  /** Feeding received bytes into a queue; what does not fit is dropped, and the result is always 0:
      the loop counts in a variable of its own. */
  method LinkRx(queue: Queue<byte>, src: seq<byte>) returns (count: int)
    modifies queue
    ensures queue.items == Accept(old(queue.items), queue.capacity, src)
    ensures count == 0
    ensures count == |queue.items| - |old(queue.items)| <==> src == [] || |old(queue.items)| >= queue.capacity
  {
    count := 0;
    ghost var start := queue.items;
    var i := 0;
    while i < |src|
      invariant i <= |src|
      invariant queue.items == start + src[..i]
      invariant i > 0 ==> |queue.items| <= queue.capacity
    {
      var ok := queue.SendToBack(src[i]);
      if !ok {
        break;
      }
      i := i + 1;
    }
    if |start| <= queue.capacity {
      assert src[..i] == src[..Min(|src|, queue.capacity - |start|)];
    } else {
      assert src[..i] == [];
    }
  }

  /** The queue after a burst: as much of it as there was room for. */
  function Accept(queue: seq<byte>, capacity: nat, src: seq<byte>): seq<byte> {
    if |queue| >= capacity then queue else queue + src[..Min(|src|, capacity - |queue|)]
  }

  /** A prefix of the burst goes in behind what is queued: all of it, or until the queue is full. */
  lemma {:induction false} AcceptTakes(queue: seq<byte>, capacity: nat, src: seq<byte>) returns (n: nat)
    ensures n <= |src| && Accept(queue, capacity, src) == queue + src[..n]
    ensures n == |src| || |queue| + n >= capacity
    ensures n == 0 || |queue| + n <= capacity
  {
    n := if |queue| >= capacity then 0 else Min(|src|, capacity - |queue|);
    if n == 0 {
      assert src[..n] == [];
      Empty(queue);
    }
  }

  /** It does not matter how the bytes are cut into bursts. */
  lemma {:induction false} AcceptConcat(queue: seq<byte>, capacity: nat, a: seq<byte>, b: seq<byte>)
    ensures Accept(Accept(queue, capacity, a), capacity, b) == Accept(queue, capacity, a + b)
  {
    if |queue| < capacity {
      var n := Min(|a|, capacity - |queue|);
      if n < |a| {
        assert (a + b)[..n] == a[..n];
      } else {
        var m := Min(|b|, capacity - |queue| - n);
        assert a[..n] == a && (a + b)[..n + m] == a + b[..m];
        Assoc(queue, a, b[..m]);
        Empty(queue + a);
      }
    }
  }

  /** What `PutLine` leaves in the queue, what others took from it meanwhile, and how many bytes went in. */
  datatype Put = Put(queue: seq<byte>, taken: seq<byte>, count: nat)

  /** Taking up to `n` bytes from the front. */
  function Drain(queue: seq<byte>, n: nat): (r: (seq<byte>, seq<byte>))
    ensures r.0 + r.1 == queue && |r.0| == if n <= |queue| then n else |queue|
  {
    var m := Min(n, |queue|);
    (queue[..m], queue[m..])
  }

  /** Putting a line in, byte by byte; while the i-th byte waits for room, others take `drains[i]`. */
  function PutBytes(queue: seq<byte>, capacity: nat, data: seq<byte>, drains: seq<nat>): Put
    requires |data| <= |drains|
    decreases |data|
  {
    if data == [] then Put(queue, [], 0) else
      var (taken, q) := Drain(queue, drains[0]);
      if |q| >= capacity then Put(q, taken, 0)
      else
        var r := PutBytes(q + [data[0]], capacity, data[1..], drains[1..]);
        Put(r.queue, taken + r.taken, r.count + 1)
  }

  /** A prefix of the line goes in, all of it unless the queue is full, and nothing in the queue is
      lost or moved. */
  lemma {:induction false} PutConserves(queue: seq<byte>, capacity: nat, data: seq<byte>, drains: seq<nat>)
    requires |data| <= |drains|
    ensures var r := PutBytes(queue, capacity, data, drains);
            r.count <= |data| && queue + data[..r.count] == r.taken + r.queue
            && (r.count < |data| ==> |r.queue| >= capacity)
            && (|queue| <= capacity ==> |r.queue| <= capacity)
    decreases |data|
  {
    if data == [] {
      assert data[..0] == [];
    } else {
      var (taken, q) := Drain(queue, drains[0]);
      assert taken + q == queue;
      if |q| < capacity {
        PutConserves(q + [data[0]], capacity, data[1..], drains[1..]);
        var r := PutBytes(q + [data[0]], capacity, data[1..], drains[1..]);
        assert data[..r.count + 1] == [data[0]] + data[1..][..r.count];
        calc {
          queue + data[..r.count + 1];
          taken + q + ([data[0]] + data[1..][..r.count]);
          { Assoc(q, [data[0]], data[1..][..r.count]); Assoc(taken, q, [data[0]] + data[1..][..r.count]); }
          taken + (q + [data[0]] + data[1..][..r.count]);
          { Assoc(taken, r.taken, r.queue); }
          taken + r.taken + r.queue;
        }
      }
    }
  }

  /** The whole line goes in if there is room for a byte whenever one waits, because others take some. */
  lemma {:induction false} PutAllIfDrained(queue: seq<byte>, capacity: nat, data: seq<byte>, drains: seq<nat>)
    requires |data| <= |drains| && |queue| <= capacity && capacity > 0
    requires forall i {:trigger drains[i]} | 0 <= i < |data| :: drains[i] > 0
    ensures PutBytes(queue, capacity, data, drains).count == |data|
    decreases |data|
  {
    if data != [] {
      var (taken, q) := Drain(queue, drains[0]);
      forall i | 0 <= i < |data[1..]| ensures drains[1..][i] > 0 { assert drains[i + 1] > 0; }
      PutAllIfDrained(q + [data[0]], capacity, data[1..], drains[1..]);
    }
  }

  /** Writing a line into the queue; -1 if not even one byte went in. */
  method PutLine(queue: Queue<byte>, data: seq<byte>, drains: seq<nat>) returns (count: int)
    requires |data| <= |drains|
    modifies queue
    ensures var r := PutBytes(old(queue.items), queue.capacity, data, drains);
            queue.items == r.queue && count == if r.count == 0 then -1 else r.count
  {
    var i := 0;
    ghost var start := queue.items;
    while i < |data|
      invariant i <= |data|
      invariant var r := PutBytes(start, queue.capacity, data, drains);
                var s := PutBytes(queue.items, queue.capacity, data[i..], drains[i..]);
                r.queue == s.queue && r.count == i + s.count
    {
      assert data[i..][1..] == data[i + 1..] && drains[i..][1..] == drains[i + 1..];
      queue.items := Drain(queue.items, drains[i]).1;
      var ok := queue.SendToBack(data[i]);
      if !ok {
        break;
      }
      i := i + 1;
    }
    count := if i == 0 then -1 else i;
  }
}
