/** Regrouping of concatenations, stated once for any element type. */
module Sequences {
  /** A single element in the middle of a concatenation. */
  lemma AppendOne<T>(a: seq<T>, x: T, b: seq<T>)
    ensures a + [x] + b == a + ([x] + b)
  {
  }

  /** Concatenation is associative. */
  lemma Assoc<T>(a: seq<T>, b: seq<T>, c: seq<T>)
    ensures a + b + c == a + (b + c)
  {
  }

  /** Concatenation regrouped to the right, as the parser consumes it. */
  lemma Regroup<T>(p1: seq<T>, p2: seq<T>, p3: seq<T>, p4: seq<T>, p5: seq<T>, p6: seq<T>, rest: seq<T>)
    ensures p1 + p2 + p3 + p4 + p5 + p6 + rest == p1 + (p2 + (p3 + (p4 + (p5 + (p6 + rest)))))
  {
    Assoc(p1 + p2 + p3 + p4 + p5, p6, rest);
    Assoc(p1 + p2 + p3 + p4, p5, p6 + rest);
    Regroup4(p1, p2, p3, p4, p5 + (p6 + rest));
  }

  /** The same for four parts. */
  lemma Regroup4<T>(p1: seq<T>, p2: seq<T>, p3: seq<T>, p4: seq<T>, rest: seq<T>)
    ensures p1 + p2 + p3 + p4 + rest == p1 + (p2 + (p3 + (p4 + rest)))
  {
    Assoc(p1 + p2 + p3, p4, rest);
    Assoc(p1 + p2, p3, p4 + rest);
    Assoc(p1, p2, p3 + (p4 + rest));
  }
}
