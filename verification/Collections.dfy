/** Facts about sets and sequences. */
module Collections {
  lemma SmallerSet<T>(a: set<T>, b: set<T>)
    requires a < b
    ensures |a| < |b|
  {
    assert b == a + (b - a);
  }

  lemma SmallerOrEqualSet<T>(a: set<T>, b: set<T>)
    requires a <= b
    ensures |a| <= |b|
  {
    assert b == a + (b - a);
  }

  /** Taking an element off what is to be done and counting it as done. */
  lemma MoveOne<T>(done: set<T>, todo: set<T>, x: T)
    requires x in todo
    ensures (done + {x}) + (todo - {x}) == done + todo
    ensures done !! todo ==> (done + {x}) !! (todo - {x})
  {
  }

  lemma UnionOneMore<T>(base: set<T>, done: set<T>, x: T)
    ensures base + done + {x} == base + (done + {x})
  {
  }

  /** A list behind another one, its last element taken off. */
  lemma SplitLast<T>(first: seq<T>, list: seq<T>)
    requires list != []
    ensures list == list[..|list| - 1] + [list[|list| - 1]]
    ensures first + list == first + list[..|list| - 1] + [list[|list| - 1]]
    ensures forall x :: x in list[..|list| - 1] ==> x in list
    ensures forall x :: x in first + list[..|list| - 1] ==> x in first + list
  {
  }

  function Repeat<T>(x: T, n: nat): (s: seq<T>)
    ensures |s| == n
  {
    seq(n, _ => x)
  }
}
