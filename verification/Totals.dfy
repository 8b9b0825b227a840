/** Weighted totals over a sequence, used to count threads by where they stand. */
module Totals {

  function Total<T>(s: seq<T>, w: T -> nat): nat
  {
    if s == [] then 0 else w(s[0]) + Total(s[1..], w)
  }

  /** Changing one element changes the total by the difference of the two weights. */
  lemma {:induction false} TotalUpdate<T>(s: seq<T>, i: nat, x: T, w: T -> nat)
    requires i < |s|
    ensures Total(s[i := x], w) + w(s[i]) == Total(s, w) + w(x)
  {
    if i == 0 {
      assert s[0 := x][1..] == s[1..];
    } else {
      TotalUpdate(s[1..], i - 1, x, w);
      assert s[i := x][1..] == s[1..][i - 1 := x];
    }
  }

  /** Every element is counted. */
  lemma {:induction false} TotalAtLeast<T>(s: seq<T>, i: nat, w: T -> nat)
    requires i < |s|
    ensures w(s[i]) <= Total(s, w)
  {
    if i > 0 {
      TotalAtLeast(s[1..], i - 1, w);
    }
  }

  /** Two elements in different places are both counted. */
  lemma {:induction false} TotalPair<T>(s: seq<T>, i: nat, j: nat, w: T -> nat)
    requires i < j < |s|
    ensures w(s[i]) + w(s[j]) <= Total(s, w)
  {
    if i == 0 {
      TotalAtLeast(s[1..], j - 1, w);
    } else {
      TotalPair(s[1..], i - 1, j - 1, w);
    }
  }

  /** A positive total has a contributor. */
  lemma {:induction false} TotalWitness<T>(s: seq<T>, w: T -> nat) returns (i: nat)
    requires Total(s, w) > 0
    ensures i < |s| && w(s[i]) > 0
  {
    if w(s[0]) > 0 {
      i := 0;
    } else {
      i := TotalWitness(s[1..], w);
      i := i + 1;
    }
  }

  /** A sequence whose elements all have the same weight. */
  lemma {:induction false} TotalConstant<T>(s: seq<T>, w: T -> nat, c: nat)
    requires forall i :: 0 <= i < |s| ==> w(s[i]) == c
    ensures Total(s, w) == c * |s|
  {
    if s != [] {
      TotalConstant(s[1..], w, c);
    }
  }
}
