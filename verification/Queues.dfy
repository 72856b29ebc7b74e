/** A bounded queue of the operating system; sending does not wait and fails when it is full. */
module Queues {
  import opened Seqs

  /** What is queued, and what was refused because there was no room. */
  datatype Fifo<T> = Fifo(items: seq<T>, dropped: seq<T>)

  function Send<T>(f: Fifo<T>, capacity: nat, x: T): Fifo<T> {
    if |f.items| < capacity then Fifo(f.items + [x], f.dropped) else Fifo(f.items, f.dropped + [x])
  }

  function SendAll<T>(f: Fifo<T>, capacity: nat, xs: seq<T>): Fifo<T> {
    if xs == [] then f else Send(SendAll(f, capacity, xs[..|xs| - 1]), capacity, xs[|xs| - 1])
  }

  lemma {:induction false} SnocSend<T>(f: Fifo<T>, capacity: nat, xs: seq<T>, x: T)
    ensures SendAll(f, capacity, xs + [x]) == Send(SendAll(f, capacity, xs), capacity, x)
  {
  }

  lemma {:induction false} SendConcat<T>(f: Fifo<T>, capacity: nat, xs: seq<T>, ys: seq<T>)
    ensures SendAll(f, capacity, xs + ys) == SendAll(SendAll(f, capacity, xs), capacity, ys)
  {
    if ys == [] {
      assert xs + ys == xs;
    } else {
      SendConcat(f, capacity, xs, ys[..|ys| - 1]);
      SnocSend(f, capacity, xs + ys[..|ys| - 1], ys[|ys| - 1]);
      assert xs + ys == xs + ys[..|ys| - 1] + [ys[|ys| - 1]];
    }
  }

  lemma SendTwo<T>(f: Fifo<T>, capacity: nat, x: T, y: T)
    ensures SendAll(f, capacity, [x]) == Send(f, capacity, x)
    ensures SendAll(f, capacity, [x, y]) == Send(Send(f, capacity, x), capacity, y)
  {
  }

  /** Of what is sent, exactly as much goes in as there is room for, in order, and the rest is refused. */
  lemma {:induction false} SendAllTakes<T>(f: Fifo<T>, capacity: nat, xs: seq<T>) returns (n: nat)
    ensures n <= |xs| && SendAll(f, capacity, xs) == Fifo(f.items + xs[..n], f.dropped + xs[n..])
    ensures n == |xs| || |f.items| + n >= capacity
    ensures n == 0 || |f.items| + n <= capacity
  {
    if xs == [] {
      n := 0;
      Empty(f.items);
      Empty(f.dropped);
    } else {
      hide SendAll;
      var p, x := xs[..|xs| - 1], xs[|xs| - 1];
      n := SendAllTakes(f, capacity, p);
      SplitLast(xs);
      SnocSend(f, capacity, p, x);
      TakeOfSnoc(f, p, x, n);
      if |f.items + p[..n]| < capacity { n := |xs|; }
    }
  }

  lemma {:induction false} TakeOfSnoc<T>(f: Fifo<T>, p: seq<T>, x: T, n: nat)
    requires n <= |p|
    ensures (p + [x])[..n] == p[..n] && f.dropped + (p + [x])[n..] == (f.dropped + p[n..]) + [x]
    ensures n == |p| ==> f.items + (p + [x])[..n + 1] == (f.items + p[..n]) + [x] && (p + [x])[n + 1..] == p[n..] == []
  {
  }

  class Queue<T> {
    const capacity: nat
    var items: seq<T>
    ghost var dropped: seq<T>

    constructor (capacity: nat)
      ensures this.capacity == capacity && State() == Fifo([], [])
    {
      this.capacity := capacity;
      items, dropped := [], [];
    }

    ghost function State(): Fifo<T>
      reads this
    {
      Fifo(items, dropped)
    }

    method SendToBack(x: T) returns (ok: bool)
      modifies this
      ensures State() == Send(old(State()), capacity, x)
      ensures ok <==> |old(items)| < capacity
    {
      ok := |items| < capacity;
      if ok {
        items := items + [x];
      } else {
        dropped := dropped + [x];
      }
    }

    method Receive() returns (x: T)
      requires items != []
      modifies this
      ensures [x] + items == old(items) && dropped == old(dropped)
    {
      x := items[0];
      items := items[1..];
    }
  }
}
