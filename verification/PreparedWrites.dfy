/** The linked list in which prepared writes wait for the execute request. */
module PreparedWrites {
  import opened Console
  import opened Fragments
  import opened Queues
  import opened Seqs

  /** The combined length of a list of chunks. */
  function Size(chunks: seq<seq<byte>>): nat {
    if chunks == [] then 0 else Size(chunks[..|chunks| - 1]) + |chunks[|chunks| - 1]|
  }

  lemma {:induction false} SizeSnoc(chunks: seq<seq<byte>>, c: seq<byte>)
    ensures Size(chunks + [c]) == Size(chunks) + |c|
  {
  }

  /** A byte queue that is fed chunk by chunk. */
  function AcceptAll(queue: seq<byte>, capacity: nat, chunks: seq<seq<byte>>): seq<byte> {
    if chunks == [] then queue
    else Accept(AcceptAll(queue, capacity, chunks[..|chunks| - 1]), capacity, chunks[|chunks| - 1])
  }

  /** That is the same as feeding it the chunks put together. */
  lemma {:induction false} AcceptAllIsOne(queue: seq<byte>, capacity: nat, chunks: seq<seq<byte>>)
    ensures AcceptAll(queue, capacity, chunks) == Accept(queue, capacity, Concat(chunks))
  {
    if chunks == [] {
      var none := Concat(chunks);
      assert none == [];
      var n := AcceptTakes(queue, capacity, none);
      Empty(queue);
    } else {
      hide Accept;
      var p, c := chunks[..|chunks| - 1], chunks[|chunks| - 1];
      AcceptAllIsOne(queue, capacity, p);
      AcceptConcat(queue, capacity, Concat(p), c);
      SplitLast(chunks);
      ConcatSnoc(p, c);
    }
  }

  lemma {:induction false} AcceptAllConcat(queue: seq<byte>, capacity: nat, a: seq<seq<byte>>, b: seq<seq<byte>>)
    ensures AcceptAll(queue, capacity, a + b) == AcceptAll(AcceptAll(queue, capacity, a), capacity, b)
  {
    if b == [] {
      Empty(a);
    } else {
      hide Accept;
      AcceptAllConcat(queue, capacity, a, b[..|b| - 1]);
      ConcatLast(a, b);
      TakeSnoc(a + b[..|b| - 1], b[|b| - 1]);
    }
  }

  /** A node with its own copy of the bytes. */
  class Node {
    const len: nat
    const buff: seq<byte>
    var next: Node?

    constructor (value: seq<byte>)
      ensures len == |value| && buff == value && next == null
    {
      len, buff, next := |value|, value, null;
    }
  }

  class WriteBuffer {
    var p1: Node?
    var p2: Node?
    var nodeNum: int
    var buffSize: int
    var first: Node?
    /** The nodes of the list in order, and what they hold. */
    ghost var spine: seq<Node>
    ghost var chunks: seq<seq<byte>>
    /** The nodes that have been allocated and not released. */
    ghost var live: set<Node>

    constructor ()
      ensures Valid() && chunks == [] && spine == []
    {
      p1, p2, first := null, null, null;
      nodeNum, buffSize := 0, 0;
      spine, chunks, live := [], [], {};
    }

    /** The list is acyclic and ends in null; its cursors, count and size are right; and it is made of
        the live nodes, none of which is out of its reach. */
    ghost predicate Valid()
      reads this`p2, this`nodeNum, this`buffSize, this`first, this`spine, this`chunks, this`live, spine
    {
      Ends() && Chain() && Distinct() && Filled() && Held()
    }

    ghost predicate Held()
      reads this`spine, this`live
    {
      live == set n | n in spine
    }

    ghost predicate Ends()
      reads this`p2, this`nodeNum, this`first, this`spine
    {
      && nodeNum == |spine|
      && first == (if spine == [] then null else spine[0])
      && p2 == (if spine == [] then null else spine[|spine| - 1])
    }

    ghost predicate Chain()
      reads this`spine, spine
    {
      forall i {:trigger spine[i]} | 0 <= i < |spine| ::
        spine[i].next == if i + 1 < |spine| then spine[i + 1] else null
    }

    ghost predicate Distinct()
      reads this`spine
    {
      forall i, j | 0 <= i < j < |spine| :: spine[i] != spine[j]
    }

    ghost predicate Filled()
      reads this`spine, this`chunks, this`buffSize
    {
      && |chunks| == |spine|
      && (forall i {:trigger spine[i]} {:trigger chunks[i]} | 0 <= i < |spine| ::
            spine[i].len == |chunks[i]| && spine[i].buff == chunks[i])
      && buffSize == Size(chunks)
    }

    /** A link may be followed while its node is live. */
    method Next(node: Node) returns (next: Node?)
      requires node in live
      ensures next == node.next
    {
      next := node.next;
    }

    /** So may its bytes be read. */
    method Bytes(node: Node) returns (bytes: seq<byte>)
      requires node in live
      ensures bytes == node.buff
    {
      bytes := node.buff;
    }

    /** And the link be set. */
    method Link(node: Node, next: Node)
      requires node in live
      modifies node
      ensures node.next == next
    {
      node.next := next;
    }

    /** Giving a node and its bytes back: only a live one, so never twice. */
    ghost method Release(node: Node)
      requires node in live
      modifies this`live
      ensures live == old(live) - {node}
    {
      live := live - {node};
    }

    /** Linking a new node behind the tail, which is never one that was released. */
    method Append(node: Node)
      requires Ends() && Chain() && Distinct() && Held()
      requires node !in spine && node.next == null
      modifies this`p2, this`nodeNum, this`first, this`spine, this`live, p2
      ensures Ends() && Chain() && Distinct() && Held()
      ensures spine == old(spine) + [node]
    {
      if p2 != null {
        Link(p2, node);
      }
      p2 := node;
      if nodeNum == 0 {
        first := node;
      }
      nodeNum := nodeNum + 1;
      spine, live := spine + [node], live + {node};
    }

    /** A prepared write: appended at the tail, or refused if there is no memory for its node. */
    method Store(value: seq<byte>, memory: bool) returns (ok: bool)
      requires Valid()
      modifies this, p2
      ensures Valid() && ok == memory
      ensures chunks == if memory then old(chunks) + [value] else old(chunks)
      ensures if memory then |spine| == |old(spine)| + 1 && old(spine) <= spine && fresh(spine[|spine| - 1])
              else spine == old(spine)
    {
      if !memory {
        p1 := null;
        return false;
      }
      var node := new Node(value);
      p1 := node;
      Append(node);
      buffSize := buffSize + node.len;
      SizeSnoc(chunks, value);
      chunks := chunks + [value];
      return true;
    }

    /** Handing the prepared writes to the console's callback, one by one: `handed` is what it got. */
    method Print(console: Queue<byte>) returns (ghost handed: seq<seq<byte>>)
      requires Valid()
      modifies this`p1, console
      ensures handed == chunks
      ensures console.items == AcceptAll(old(console.items), console.capacity, handed)
      ensures p1 == null
    {
      p1 := first;
      handed := [];
      var i := 0;
      while p1 != null
        invariant i <= |spine| && p1 == if i < |spine| then spine[i] else null
        invariant handed == chunks[..i]
        invariant console.items == AcceptAll(old(console.items), console.capacity, handed)
        decreases |spine| - i
      {
        TakeTake(chunks, i + 1, i);
        var bytes := Bytes(p1);
        var _ := LinkRx(console, bytes);
        handed := handed + [bytes];
        p1 := Next(p1);
        i := i + 1;
      }
      TakeAll(chunks);
    }

    /** The nodes from the `i`-th on. */
    ghost function From(i: nat): set<Node>
      requires i <= |spine|
      reads this`spine
    {
      set k | i <= k < |spine| :: spine[k]
    }

    /** Walking the list and releasing each node once, without a look at one that is gone; no node
        is left, and both cursors are null. */
    method FreeNodes()
      requires Valid()
      modifies this`p1, this`p2, this`live
      ensures p1 == null && p2 == null && live == {}
    {
      p1 := first;
      ghost var i := 0;
      while p1 != null
        invariant i <= |spine| && p1 == if i < |spine| then spine[i] else null
        invariant i == |spine| ==> p2 == null
        invariant live == From(i)
        decreases |spine| - i
      {
        p2 := Next(p1);
        Release(p1);
        p1 := p2;
        i := i + 1;
      }
    }

    method Free()
      requires Valid()
      modifies this
      ensures Valid() && chunks == [] && spine == [] && live == {} && p1 == null
    {
      FreeNodes();
      nodeNum, buffSize, first := 0, 0, null;
      spine, chunks := [], [];
    }
  }
}
