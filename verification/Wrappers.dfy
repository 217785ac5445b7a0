/** Optional values, results and lists without repetition, shared by every module. */
module Wrappers {

  datatype Option<+T> = None | Some(value: T)

  datatype Result<+T, +E> = Ok(value: T) | Err(error: E) {
    predicate IsFailure() { Err? }

    function PropagateFailure<U>(): Result<U, E>
      requires Err?
    {
      Err(error)
    }

    function Extract(): T
      requires Ok?
    {
      value
    }
  }

  predicate NoRepeats<T(==)>(s: seq<T>) {
    forall i, j {:trigger s[i], s[j]} :: 0 <= i < j < |s| ==> s[i] != s[j]
  }

  /** A list that names each element of a set once is as long as the set is large. */
  lemma {:induction false} CountEach<T>(s: seq<T>, keys: set<T>)
    requires NoRepeats(s) && forall x :: x in s <==> x in keys
    ensures |s| == |keys|
    decreases |s|
  {
    if s == [] {
      assert keys == {};
    } else {
      var last := s[|s| - 1];
      var rest := s[..|s| - 1];
      assert s == rest + [last];
      forall x ensures x in rest <==> x in keys - {last} {
        if x in rest {
          var i :| 0 <= i < |rest| && rest[i] == x;
          assert s[i] != s[|s| - 1];
        }
      }
      CountEach(rest, keys - {last});
    }
  }

  function Min(a: nat, b: nat): nat { if a < b then a else b }

  function Max(a: nat, b: nat): nat { if a < b then b else a }
}
