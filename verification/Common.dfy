/** Small datatypes shared by the component models. */
module Common {

  datatype Option<+T> = None | Some(value: T)

  /** The answer of one remote call: it took effect, it reported an error that
      the caller handles, or it raised an exception the caller lets through. */
  datatype Reply = Done | Refused | Raised

  /** All pages, blocks or batches in a row. */
  function Concat<T>(parts: seq<seq<T>>): seq<T> {
    if parts == [] then [] else Concat(parts[..|parts| - 1]) + parts[|parts| - 1]
  }

  lemma {:induction false} ConcatConcat<T>(a: seq<seq<T>>, b: seq<seq<T>>)
    ensures Concat(a + b) == Concat(a) + Concat(b)
  {
    if b == [] {
      assert a + b == a;
    } else {
      var before, last := b[..|b| - 1], b[|b| - 1];
      assert (a + b)[..|a + b| - 1] == a + before && (a + b)[|a + b| - 1] == last;
      ConcatConcat(a, before);
      assert (Concat(a) + Concat(before)) + last == Concat(a) + (Concat(before) + last);
    }
  }

  /** Something is in the row exactly if it is in one of the parts. */
  lemma {:induction false} ConcatHas<T>(parts: seq<seq<T>>, x: T)
    ensures x in Concat(parts) <==> exists i :: 0 <= i < |parts| && x in parts[i]
  {
    if parts != [] {
      var before := parts[..|parts| - 1];
      ConcatHas(before, x);
      if x in Concat(before) {
        var i :| 0 <= i < |before| && x in before[i];
        assert x in parts[i];
      }
      if i :| 0 <= i < |parts| && x in parts[i] && i < |parts| - 1 {
        assert x in before[i];
      }
    }
  }
}
