/** `min` and `sorted` over finite sets of integers. */
module SortedInts {

  ghost predicate IsLeast(m: int, s: set<int>) {
    m in s && forall x | x in s :: m <= x
  }

  lemma HasElement(s: set<int>)
    requires s != {}
    ensures exists x :: x in s
  {
    assert (forall x :: x !in s) ==> s == {};
  }

  lemma LeastExists(s: set<int>)
    requires s != {}
    ensures exists m :: IsLeast(m, s)
  {
    HasElement(s);
    var x :| x in s;
    var rest := s - {x};
    assert forall y | y in s :: y == x || y in rest;
    if rest == {} {
      assert IsLeast(x, s);
    } else {
      LeastExists(rest);
      var m :| IsLeast(m, rest);
      assert IsLeast(if x < m then x else m, s);
    }
  }

  function Least(s: set<int>): (m: int)
    requires s != {}
    ensures m in s
    ensures forall x | x in s :: m <= x
  {
    assert exists m :: m in s && forall x | x in s :: m <= x by {
      LeastExists(s);
      var m :| IsLeast(m, s);
    }
    var m :| m in s && forall x | x in s :: m <= x;
    m
  }

  ghost predicate StrictlyIncreasing(q: seq<int>) {
    forall i, j | 0 <= i < j < |q| :: q[i] < q[j]
  }

  function Sorted(s: set<int>): (q: seq<int>)
    ensures |q| == |s|
    ensures StrictlyIncreasing(q)
    ensures forall x :: x in q <==> x in s
    decreases |s|
  {
    if s == {} then [] else
      var m := Least(s);
      var rest := Sorted(s - {m});
      assert forall x :: x in [m] + rest <==> x in s;
      [m] + rest
  }

  function Range(lo: int, hi: int): (s: set<int>)
    requires lo <= hi
    ensures forall x :: x in s <==> lo <= x < hi
    ensures |s| == hi - lo
    decreases hi - lo
  {
    if lo == hi then {} else
      var s := Range(lo, hi - 1);
      s + {hi - 1}
  }

  function Greatest(s: set<int>): (m: int)
    requires s != {}
    ensures m in s
    ensures forall x | x in s :: x <= m
  {
    var q := Sorted(s);
    assert q[|q| - 1] in q;
    assert forall x | x in s :: x <= q[|q| - 1] by {
      forall x | x in s ensures x <= q[|q| - 1] {
        assert x in q;
      }
    }
    q[|q| - 1]
  }
}
