/** Regrouping concatenations. The texts of this project are built from many pieces, and
    the verifier does not regroup a sum of sequences unless asked. */
module Sequences {
  lemma Joins<T>(a: seq<T>, b: seq<T>, c: seq<T>)
    ensures a + b + c == a + (b + c)
  {
  }

  lemma FourPieces<T>(a: seq<T>, b: seq<T>, c: seq<T>, d: seq<T>)
    ensures a + b + c + d == a + (b + (c + d))
  {
  }

  lemma FivePieces<T>(a: seq<T>, b: seq<T>, c: seq<T>, d: seq<T>, e: seq<T>)
    ensures a + b + c + d + e == a + (b + (c + (d + e)))
  {
    Joins(a + b + c, d, e);
    FourPieces(a, b, c, d + e);
  }

  lemma Encloses<T>(o: seq<T>, a: seq<T>, x: seq<T>, b: seq<T>)
    ensures o + a + x + b == o + (a + x + b)
  {
  }

  /** The head moves from what is left to what is done. */
  lemma Shift<T>(done: seq<T>, left: seq<T>)
    requires left != []
    ensures done + [left[0]] + left[1..] == done + left
  {
  }
}
