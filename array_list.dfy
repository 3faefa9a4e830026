/**
 * The part of java.util.ArrayList that the trimmer and the parser use:
 * a growable list whose contents change in place.
 */
module JavaList {

  /** The list after remove(Object): the first element equal to x is dropped, if any. */
  function RemoveFirst<T(==)>(s: seq<T>, x: T): (r: seq<T>)
    ensures x in s ==> |r| == |s| - 1 && multiset(r) == multiset(s) - multiset{x}
    ensures x !in s ==> r == s
  {
    if s == [] then []
    else if s[0] == x then
      assert s == [s[0]] + s[1..];
      s[1..]
    else
      assert s == [s[0]] + s[1..];
      [s[0]] + RemoveFirst(s[1..], x)
  }

  class ArrayList<T(==)> {
    var items: seq<T>

    /** A new, empty list. */
    constructor ()
      ensures items == []
    {
      items := [];
    }

    /** add(x): appends x at the end. */
    method Add(x: T)
      modifies this
      ensures items == old(items) + [x]
    {
      items := items + [x];
    }

    /** contains(x): whether some element equals x. */
    method Contains(x: T) returns (b: bool)
      ensures b <==> x in items
    {
      b := x in items;
    }

    /** remove(Object x): drops the first element equal to x and says whether there was one. */
    method Remove(x: T) returns (removed: bool)
      modifies this
      ensures removed <==> x in old(items)
      ensures items == RemoveFirst(old(items), x)
    {
      removed := x in items;
      items := RemoveFirst(items, x);
    }
  }
}
