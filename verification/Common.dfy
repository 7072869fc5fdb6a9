/** Shared by all components: `Option` for a nullable column, an optional parameter or a
    lookup that may find no row. */
module Common {
  datatype Option<+T> = None | Some(value: T)

  lemma {:induction false} Assoc<T>(a: seq<T>, b: seq<T>, c: seq<T>)
    ensures (a + b) + c == a + (b + c)
  {
  }
}
