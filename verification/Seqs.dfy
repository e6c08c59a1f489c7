/** Facts about sequences that proofs elsewhere apply one at a time. */
module Seqs {

  function Flatten<T>(ss: seq<seq<T>>): seq<T> {
    if ss == [] then [] else ss[0] + Flatten(ss[1..])
  }

  lemma Assoc<T>(a: seq<T>, b: seq<T>, c: seq<T>)
    ensures a + (b + c) == (a + b) + c
  {
  }

  lemma Head<T>(s: seq<T>, p: nat)
    requires p < |s|
    ensures s[p..] == [s[p]] + s[p + 1..]
  {
  }

  lemma DropDrop<T>(s: seq<T>, a: nat, b: nat)
    requires a + b <= |s|
    ensures s[a..][b..] == s[a + b..]
  {
  }

  lemma DropHead<T>(a: seq<T>, b: seq<T>)
    ensures (a + b)[|a|..] == b
  {
  }

  /** A slice of a window is a slice of the whole. */
  lemma Window<T>(s: seq<T>, a: nat, n: nat, i: nat, j: nat)
    requires i <= j <= n && a + n <= |s|
    ensures s[a..][..n][i..j] == s[a + i..a + j]
  {
  }

  lemma Middle<T>(a: seq<T>, b: seq<T>, c: seq<T>)
    ensures (a + b + c)[|a|..|a| + |b|] == b
  {
  }

  lemma TakeDrop<T>(s: seq<T>, a: nat)
    requires a <= |s|
    ensures s == s[..a] + s[a..]
  {
  }

  /** Parts of the front are the same with more behind it. */
  lemma FrontPart<T>(a: seq<T>, b: seq<T>, i: nat, j: nat)
    requires i <= j <= |a|
    ensures (a + b)[i..j] == a[i..j] && (a + b)[j..] == a[j..] + b
  {
  }

  /** Prepending keeps the prefix relation and what equality with the whole means. */
  lemma PrependPrefix<T>(a: seq<T>, p: seq<T>, s: seq<T>)
    requires p <= s
    ensures a + p <= a + s
    ensures a + p == a + s <==> p == s
  {
    if a + p == a + s { assert (a + p)[|a|..] == p && (a + s)[|a|..] == s; }
  }
}
