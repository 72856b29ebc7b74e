/** Facts about sequences, kept apart so that they are proved once and on their own. */
module Seqs {

  lemma Assoc<T>(a: seq<T>, b: seq<T>, c: seq<T>)
    ensures a + (b + c) == (a + b) + c
  {
  }

  lemma SplitLast<T>(s: seq<T>)
    requires s != []
    ensures s == s[..|s| - 1] + [s[|s| - 1]]
  {
  }

  lemma ConcatLast<T>(a: seq<T>, s: seq<T>)
    requires s != []
    ensures a + s == (a + s[..|s| - 1]) + [s[|s| - 1]]
  {
  }

  lemma TakeSnoc<T>(s: seq<T>, x: T)
    ensures (s + [x])[..|s|] == s && |s + [x]| == |s| + 1 && (s + [x])[|s|] == x
  {
  }

  lemma Empty<T>(s: seq<T>)
    ensures s + [] == s && [] + s == s
  {
  }

  lemma TakeTake<T>(s: seq<T>, n: nat, i: nat)
    requires i <= n <= |s|
    ensures s[..n][..i] == s[..i]
  {
  }

  lemma TakeAll<T>(s: seq<T>)
    ensures s[..|s|] == s
  {
  }

  lemma BagSnoc<T>(s: seq<T>, x: T)
    ensures multiset(s + [x]) == multiset(s) + multiset{x}
  {
  }

  lemma BagConcat<T>(a: seq<T>, b: seq<T>)
    ensures multiset(a + b) == multiset(a) + multiset(b)
  {
  }

  lemma SplitConcat<T>(a: seq<T>, b: seq<T>)
    ensures (a + b)[..|a|] == a && (a + b)[|a|..] == b
  {
  }

  lemma SplitFirst<T>(s: seq<T>)
    requires s != []
    ensures s == [s[0]] + s[1..]
  {
  }
}
