/** Options, and facts about sequences that proofs would otherwise discover at length. */
module Sequences {
  datatype Option<+T> = None | Some(value: T)

  lemma Associative<T>(a: seq<T>, b: seq<T>, c: seq<T>)
    ensures a + (b + c) == (a + b) + c
  {}

  lemma HeadAndTail<T>(a: seq<T>, b: seq<T>)
    requires a != []
    ensures a == [a[0]] + a[1..] && a + b == [a[0]] + (a[1..] + b)
  {}

  /** Two concatenations of pieces, the first ones no shorter than the second ones. */
  lemma SamePieces<T>(a: seq<T>, b: seq<T>, x: seq<T>, y: seq<T>)
    requires |a| >= |x| && |b| >= |y|
    ensures a + b == x + y <==> a == x && b == y
  {
    if a + b == x + y {
      assert |a| == |x|;
      assert a == (a + b)[..|a|] && x == (x + y)[..|x|];
      assert b == (a + b)[|a|..] && y == (x + y)[|x|..];
    }
  }
}
