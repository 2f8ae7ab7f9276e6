/** What several models share. */
module Basics {

  datatype Option<T> = None | Some(value: T)

  /** The list comprehension `[x for x in s if f(x)]`. */
  function Filter<T(!new)>(s: seq<T>, f: T -> bool): (r: seq<T>)
    ensures forall x :: x in r <==> x in s && f(x)
    ensures (forall x :: x in s ==> f(x)) ==> r == s
  {
    if s == [] then [] else
      var rest := Filter(s[1..], f);
      assert s == [s[0]] + s[1..];
      if f(s[0]) then [s[0]] + rest else rest
  }
}
