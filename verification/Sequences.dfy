/** Lists without repetition. */
module Sequences {

  ghost predicate Distinct<T>(s: seq<T>) {
    forall i, j | 0 <= i < j < |s| :: s[i] != s[j]
  }

  /** One more element keeps a list without repetition so, exactly if it is new. */
  lemma DistinctOneMore<T>(s: seq<T>, x: T)
    ensures Distinct(s + [x]) <==> Distinct(s) && x !in s
  {
    if Distinct(s + [x]) {
      forall i, j | 0 <= i < j < |s|
        ensures s[i] != s[j]
      {
        assert (s + [x])[i] != (s + [x])[j];
      }
      forall i | 0 <= i < |s|
        ensures s[i] != x
      {
        assert (s + [x])[i] != (s + [x])[|s|];
      }
    }
  }

  /** A repetition in a prefix is one in the whole list. */
  lemma RepetitionSpreads<T>(s: seq<T>, p: seq<T>)
    requires p <= s && !Distinct(p)
    ensures !Distinct(s)
  {
    var i, j :| 0 <= i < j < |p| && p[i] == p[j];
    assert s[i] == s[j];
  }
}
