/** Graphs given by their edges, each a set of mutually adjacent vertices. */
module Graph {

  ghost predicate Adjacent<V>(edges: set<set<V>>, a: V, b: V) {
    exists e :: e in edges && a in e && b in e
  }

  ghost predicate IsPath<V>(edges: set<set<V>>, path: seq<V>) {
    path != [] && forall i :: 0 <= i < |path| - 1 ==> Adjacent(edges, path[i], path[i + 1])
  }

  ghost predicate Connected<V(!new)>(edges: set<set<V>>, a: V, b: V) {
    exists path :: IsPath(edges, path) && path[0] == a && path[|path| - 1] == b
  }

  lemma {:induction false} Self<V(!new)>(edges: set<set<V>>, a: V)
    ensures Connected(edges, a, a)
  {
    assert IsPath(edges, [a]);
  }

  lemma {:induction false} Step<V(!new)>(edges: set<set<V>>, a: V, b: V)
    requires Adjacent(edges, a, b)
    ensures Connected(edges, a, b)
  {
    var path := [a, b];
    assert IsPath(edges, path) && path[0] == a && path[|path| - 1] == b;
  }

  lemma {:induction false} Join<V(!new)>(edges: set<set<V>>, a: V, b: V, c: V)
    requires Connected(edges, a, b) && Connected(edges, b, c)
    ensures Connected(edges, a, c)
  {
    var p1 :| IsPath(edges, p1) && p1[0] == a && p1[|p1| - 1] == b;
    var p2 :| IsPath(edges, p2) && p2[0] == b && p2[|p2| - 1] == c;
    var path := p1 + p2[1..];
    assert IsPath(edges, path) by {
      forall i | 0 <= i < |path| - 1 ensures Adjacent(edges, path[i], path[i + 1]) {
        if i < |p1| - 1 {
          assert path[i] == p1[i] && path[i + 1] == p1[i + 1];
        } else {
          var k := i - (|p1| - 1);
          assert path[i] == p2[k] && path[i + 1] == p2[k + 1];
        }
      }
    }
    assert path[|path| - 1] == c;
  }

  ghost predicate ClosedUnder<V(!new)>(edges: set<set<V>>, vs: set<V>) {
    forall e, a, b :: e in edges && a in e && b in e && a in vs ==> b in vs
  }

  /** What is connected to a vertex lies in every set that holds the vertex and is closed under the edges. */
  lemma {:induction false} Stays<V(!new)>(edges: set<set<V>>, vs: set<V>, a: V, b: V)
    requires ClosedUnder(edges, vs) && a in vs && Connected(edges, a, b)
    ensures b in vs
  {
    var path :| IsPath(edges, path) && path[0] == a && path[|path| - 1] == b;
    var i := 0;
    while i < |path| - 1
      invariant 0 <= i <= |path| - 1 && path[i] in vs
    {
      assert Adjacent(edges, path[i], path[i + 1]);
      i := i + 1;
    }
  }

  /** Edges between connected vertices connect nothing new. */
  lemma {:induction false} Within<V(!new)>(edges: set<set<V>>, other: set<set<V>>, a: V, b: V)
    requires forall e, x, y :: e in edges && x in e && y in e ==> Connected(other, x, y)
    requires Connected(edges, a, b)
    ensures Connected(other, a, b)
  {
    var path :| IsPath(edges, path) && path[0] == a && path[|path| - 1] == b;
    Self(other, a);
    var i := 0;
    while i < |path| - 1
      invariant 0 <= i <= |path| - 1 && Connected(other, a, path[i])
    {
      assert Adjacent(edges, path[i], path[i + 1]);
      Join(other, a, path[i], path[i + 1]);
      i := i + 1;
    }
  }

  lemma {:induction false} Reversed<V(!new)>(edges: set<set<V>>, a: V, b: V)
    requires Connected(edges, a, b)
    ensures Connected(edges, b, a)
  {
    var path :| IsPath(edges, path) && path[0] == a && path[|path| - 1] == b;
    Self(edges, a);
    var i := 0;
    while i < |path| - 1
      invariant 0 <= i <= |path| - 1 && Connected(edges, path[i], a)
    {
      assert Adjacent(edges, path[i], path[i + 1]);
      Step(edges, path[i + 1], path[i]);
      Join(edges, path[i + 1], path[i], a);
      i := i + 1;
    }
  }
}
