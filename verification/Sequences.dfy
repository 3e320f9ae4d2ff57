/** Equations between sequences that the proofs use one at a time. */
module Sequences {

  lemma {:induction false} Associates<T>(x: seq<T>, y: seq<T>, z: seq<T>)
    ensures x + (y + z) == (x + y) + z
  {
  }

  lemma {:induction false} NothingBefore<T>(x: seq<T>)
    ensures [] + x == x
  {
  }

  /** One more element of a prefix. */
  lemma {:induction false} PrefixSnoc<T>(s: seq<T>, i: nat)
    requires i < |s|
    ensures s[..i + 1] == s[..i] + [s[i]]
    ensures s[..i + 1][..i] == s[..i] && s[..i + 1][i] == s[i]
  {
  }

  lemma {:induction false} FrontLast<T>(s: seq<T>)
    requires s != []
    ensures s == s[..|s| - 1] + [s[|s| - 1]]
  {
  }

  lemma {:induction false} SnocFront<T>(s: seq<T>, x: T)
    ensures (s + [x])[..|s|] == s && (s + [x])[|s|] == x
  {
  }

  lemma {:induction false} Sections<T>(x: T, a: seq<T>, b: seq<T>)
    ensures ([x] + a + b)[0] == x && forall i :: 0 <= i < |a| ==> ([x] + a + b)[1 + i] == a[i]
  {
  }
}
