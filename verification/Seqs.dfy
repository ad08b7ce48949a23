/** Sequences of sequences, put together. */
module Seqs {

  function Concat<E>(lotes: seq<seq<E>>): seq<E> {
    if lotes == [] then [] else lotes[0] + Concat(lotes[1..])
  }

  lemma ConcatOne<E>(l: seq<E>)
    ensures Concat([l]) == l
  {
    assert Concat([l]) == l + Concat([l][1..]);
  }

  lemma {:induction false} ConcatSnoc<E>(lotes: seq<seq<E>>, l: seq<E>)
    ensures Concat(lotes + [l]) == Concat(lotes) + l
  {
    if lotes == [] {
      assert lotes + [l] == [l];
      assert Concat([l]) == l + Concat([l][1..]);
    } else {
      assert (lotes + [l])[1..] == lotes[1..] + [l];
      ConcatSnoc(lotes[1..], l);
    }
  }

  lemma {:induction false} ConcatPrefix<E>(a: seq<seq<E>>, b: seq<seq<E>>)
    requires a <= b
    ensures Concat(a) <= Concat(b)
  {
    if a != [] {
      ConcatPrefix(a[1..], b[1..]);
    }
  }
}
