/** What several components share. */
module Common {

  datatype Option<+T> = None | Some(value: T)

  /** The list with every occurrence of x removed, in the same order. */
  function Without<T(==)>(l: seq<T>, x: T): seq<T> {
    if l == [] then []
    else if l[0] == x then Without(l[1..], x)
    else [l[0]] + Without(l[1..], x)
  }

  lemma {:induction false} WithoutMembers<T>(l: seq<T>, x: T)
    ensures forall y :: y in Without(l, x) <==> y in l && y != x
  {
    if l != [] {
      WithoutMembers(l[1..], x);
      assert forall y :: y in l <==> y == l[0] || y in l[1..];
    }
  }
}
