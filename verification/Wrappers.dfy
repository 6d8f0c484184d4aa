/** What several modules share. */
module Wrappers {

  datatype Option<T> = None | Some(value: T)

  ghost predicate NoDup<T>(s: seq<T>) {
    forall i, j :: 0 <= i < j < |s| ==> s[i] != s[j]
  }

  lemma Associate<T>(a: seq<T>, b: seq<T>, c: seq<T>)
    ensures a + b + c == a + (b + c)
  {
  }

  /** The numbers from 0 up to `n`. */
  function Below(n: nat): set<int> {
    if n == 0 then {} else Below(n - 1) + {n - 1}
  }

  lemma {:induction false} BelowIs(n: nat)
    ensures forall x :: x in Below(n) <==> 0 <= x < n
    ensures |Below(n)| == n
  {
    if n > 0 {
      BelowIs(n - 1);
    }
  }
}
