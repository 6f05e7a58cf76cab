/** Iteration over a std::map visits its keys in increasing order. */
module Ordered {

  ghost predicate IsLeast(x: int, s: set<int>) {
    x in s && forall y :: y in s ==> x <= y
  }

  lemma {:induction false} LeastExists(s: set<int>)
    requires s != {}
    ensures exists x :: IsLeast(x, s)
  {
    assert (forall x :: x !in s) ==> s == {};
    var x :| x in s;
    var rest := s - {x};
    assert forall z :: z in s ==> z == x || z in rest;
    if rest == {} {
      assert IsLeast(x, s);
    } else {
      LeastExists(rest);
      var y :| IsLeast(y, rest);
      assert IsLeast(if y < x then y else x, s);
    }
  }

  /** The keys in iteration order. */
  ghost function Sorted(s: set<int>): (r: seq<int>)
    ensures |r| == |s|
    ensures forall x :: x in r <==> x in s
    ensures forall i, j :: 0 <= i < j < |r| ==> r[i] < r[j]
  {
    if s == {} then []
    else
      LeastExists(s);
      var least :| IsLeast(least, s);
      assert forall x :: x in s <==> x == least || x in s - {least};
      [least] + Sorted(s - {least})
  }

  /** The iterator's next position. */
  method Next(todo: set<int>) returns (x: int)
    requires todo != {}
    ensures x in todo && Sorted(todo) == [x] + Sorted(todo - {x})
  {
    LeastExists(todo);
    x :| x in todo && forall y :: y in todo ==> x <= y;
    assert IsLeast(x, todo);
  }
}
