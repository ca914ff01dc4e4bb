/** Lists without repetition, as the kernel's linked lists are, and functions updated at a point. */
module Lists {

  function Set<K(==), V>(f: K -> V, k: K, v: V): K -> V {
    x => if x == k then v else f(x)
  }

  predicate NoDup<T(==)>(q: seq<T>) {
    forall i, j :: 0 <= i < j < |q| ==> q[i] != q[j]
  }

  lemma RestOf<T(!new)>(q: seq<T>)
    requires NoDup(q) && q != []
    ensures NoDup(q[1..]) && forall x: T :: x in q[1..] <==> x in q && x != q[0]
  {
    assert q == [q[0]] + q[1..];
  }

  /** list_del of the element x. */
  function Without<T(==)>(q: seq<T>, x: T): seq<T> {
    if q == [] then [] else if q[0] == x then q[1..] else [q[0]] + Without(q[1..], x)
  }

  lemma {:induction false} WithoutProps<T(!new)>(q: seq<T>, x: T)
    requires NoDup(q)
    ensures NoDup(Without(q, x)) && (forall y: T :: y in Without(q, x) <==> y in q && y != x)
    ensures x in q ==> |Without(q, x)| == |q| - 1
    ensures x !in q ==> Without(q, x) == q
  {
    if q != [] && q[0] != x {
      WithoutProps(q[1..], x);
      assert forall i :: 0 < i < |q| ==> q[i] != q[0];
      assert q[0] !in q[1..];
    }
  }

  function Rev<T>(q: seq<T>): seq<T> {
    if q == [] then [] else Rev(q[1..]) + [q[0]]
  }

  lemma {:induction false} RevHas<T(!new)>(q: seq<T>)
    ensures |Rev(q)| == |q| && forall x: T :: x in Rev(q) <==> x in q
  {
    if q != [] {
      RevHas(q[1..]);
      assert q == [q[0]] + q[1..];
    }
  }

  lemma HasElement(a: set<int>)
    ensures a == {} || exists x :: x in a
  {
    if forall x :: x !in a {
      assert a == {};
    }
  }
}
