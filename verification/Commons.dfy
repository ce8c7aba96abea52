module Commons {
  datatype Option<+T> = None | Some(value: T)

  predicate NoDup<T(==)>(s: seq<T>) { forall i, j :: 0 <= i < j < |s| ==> s[i] != s[j] }

  /** The members of a list. */
  function Elements<T>(s: seq<T>): set<T> { set x | x in s }

  lemma Regroup<T>(a: seq<T>, b: seq<T>, c: seq<T>)
    ensures a + b + c == a + (b + c)
  {
  }
}
