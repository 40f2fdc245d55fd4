/** Facts about sequences, to be called where they are needed. */
module Seqs {
  lemma Associates<T>(a: seq<T>, b: seq<T>, c: seq<T>)
    ensures a + b + c == a + (b + c)
  {
  }

  lemma EmptyIsUnit<T>(a: seq<T>)
    ensures a + [] == a && [] + a == a
  {
  }

  lemma TailOfPush<T>(a: seq<T>, x: T)
    requires a != []
    ensures (a + [x])[0] == a[0] && (a + [x])[1..] == a[1..] + [x]
  {
  }

  lemma FrontOfPush<T>(a: seq<T>, x: T)
    ensures (a + [x])[|a|] == x && (a + [x])[..|a|] == a
  {
  }

  lemma FrontOfCons<T>(x: T, a: seq<T>)
    requires a != []
    ensures ([x] + a)[|a|] == a[|a| - 1] && ([x] + a)[..|a|] == [x] + a[..|a| - 1]
  {
  }

  lemma ConsOfTail<T>(a: seq<T>)
    requires a != []
    ensures a == [a[0]] + a[1..]
  {
  }

  lemma SuffixStep<T>(a: seq<T>, i: nat)
    requires i < |a|
    ensures a[i..][0] == a[i] && a[i..][1..] == a[i + 1..] && a[i..] == [a[i]] + a[i + 1..]
  {
  }
}
