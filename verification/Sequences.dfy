/** Where one sequence stands within another. */
module Sequences {
  /** `t` stands in `s` at offset `p`. */
  predicate At<T(==)>(s: seq<T>, p: nat, t: seq<T>)
    ensures At(s, p, t) ==> p + |t| <= |s|
  {
    p + |t| <= |s| && forall i :: 0 <= i < |t| ==> s[p + i] == t[i]
  }

  lemma AtSplit<T>(s: seq<T>, p: nat, a: seq<T>, b: seq<T>)
    requires At(s, p, a + b)
    ensures At(s, p, a) && At(s, p + |a|, b)
  {
    forall i | 0 <= i < |a| ensures s[p + i] == a[i] { assert (a + b)[i] == a[i]; }
    forall i | 0 <= i < |b| ensures s[p + |a| + i] == b[i] { assert (a + b)[|a| + i] == b[i]; }
  }
}
