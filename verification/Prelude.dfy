/** Small shared vocabulary: names, results of fallible calls, and lists read as sets. */
module Prelude {
  type EventID = string
  type RoomID = string
  type ServerName = string

  datatype Option<+T> = None | Some(value: T)

  datatype Result<+T, +E> = Ok(value: T) | Err(error: E)

  ghost predicate Distinct<T(!new)>(s: seq<T>) {
    forall i, j :: 0 <= i < j < |s| ==> s[i] != s[j]
  }

  function ToSet<T>(s: seq<T>): (r: set<T>) {
    set x | x in s
  }

  /** The loop `for x := range m` over a Go map: every key once, in an order nobody controls. */
  method Enumerate<T(==,!new)>(s: set<T>) returns (q: seq<T>)
    ensures Distinct(q)
    ensures ToSet(q) == s
  {
    q := [];
    var left := s;
    while left != {}
      invariant Distinct(q)
      invariant left !! ToSet(q)
      invariant left + ToSet(q) == s
      decreases left
    {
      var x :| x in left;
      left := left - {x};
      q := q + [x];
    }
  }

  /** A duplicate-free list is as long as the set it lists. */
  lemma {:induction false} DistinctSize<T(!new)>(q: seq<T>)
    requires Distinct(q)
    ensures |q| == |ToSet(q)|
  {
    if q != [] {
      var init, last := q[..|q| - 1], q[|q| - 1];
      DistinctSize(init);
      assert ToSet(q) == ToSet(init) + {last} by { assert q == init + [last]; }
    }
  }
}
