/** Reversal with an accumulator, the shape of most March loops over lists. */
module Lists {

  function Rev<T>(xs: seq<T>, acc: seq<T>): seq<T>
    decreases |xs|
  {
    if xs == [] then acc else Rev(xs[1..], [xs[0]] + acc)
  }

  function Reverse<T>(xs: seq<T>): seq<T> {
    Rev(xs, [])
  }

  lemma {:induction false} RevIs<T>(xs: seq<T>, acc: seq<T>)
    ensures |Rev(xs, acc)| == |xs| + |acc|
    ensures forall k :: 0 <= k < |xs| ==> Rev(xs, acc)[k] == xs[|xs| - 1 - k]
    ensures forall k :: |xs| <= k < |xs| + |acc| ==> Rev(xs, acc)[k] == acc[k - |xs|]
    decreases |xs|
  {
    if xs != [] {
      var rest, acc2 := xs[1..], [xs[0]] + acc;
      RevIs(rest, acc2);
      assert Rev(xs, acc) == Rev(rest, acc2);
      forall k | 0 <= k < |xs|
        ensures Rev(xs, acc)[k] == xs[|xs| - 1 - k]
      {
        if k == |rest| { assert acc2[0] == xs[0]; }
      }
    }
  }

  lemma ReverseReverse<T>(xs: seq<T>)
    ensures Reverse(Reverse(xs)) == xs
  {
    RevIs(xs, []);
    RevIs(Reverse(xs), []);
  }

  lemma RevCons<T>(q: T, acc: seq<T>)
    ensures Reverse([q] + acc) == Reverse(acc) + [q]
  {
    RevIs([q] + acc, []);
    RevIs(acc, []);
  }

  /** What was consed element by element comes back in order. */
  lemma ReverseRev<T>(xs: seq<T>, acc: seq<T>)
    ensures Reverse(Rev(xs, acc)) == Reverse(acc) + xs
  {
    RevIs(xs, acc);
    RevIs(Rev(xs, acc), []);
    RevIs(acc, []);
  }
}
