/** Adding the equality joins that follow from a query's joins. */
module EquivalenceClasses {
  import opened Sql
  import opened Flatten
  import opened JoinPredicates
  import Graph

  function Eq(a: Column, b: Column): Expr { Cmp(Equal, Col(a), Col(b)) }

  /** The column below any number of casts (`_unwrap_expression`). */
  function Unwrap(e: Expr): Option<Column> {
    if e.Col? then Some(e.column)
    else if e.App? && e.fn.Cast? && |e.args| == 1 then Unwrap(e.args[0])
    else None
  }

  /** `SimpleJoin.can_wrap` */
  predicate CanWrap(p: Expr) {
    p.Cmp? && p.op == Equal && IsJoin(p) && Unwrap(p.lhs).Some? && Unwrap(p.rhs).Some?
  }

  /** A join that makes an edge between its two columns. */
  predicate IsEdge(p: Expr) { p.Cmp? && p.op == Equal && IsJoin(p) && |Columns(p)| == 2 }

  predicate IsBare(p: Expr) { p.Cmp? && p.lhs.Col? && p.rhs.Col? }

  /** A comparison with a literal NULL is never True. */
  predicate ComparesNull(p: Expr) { p.Cmp? && (p.lhs == Lit(Null) || p.rhs == Lit(Null)) }

  function Joins(p: Expr): set<Expr> { set c | c in Conjuncts(p) && IsJoin(c) }

  function Filters(p: Expr): set<Expr> { set c | c in Conjuncts(p) && !IsJoin(c) }

  function Complex(js: set<Expr>): set<Expr> { set j | j in js && !CanWrap(j) }

  function Edges(js: set<Expr>): set<set<Column>> { set j | j in js && IsEdge(j) :: Columns(j) }

  // ----- what joins are edges and what joins are replaced -----

  /** A column below casts, the outermost one first. */
  ghost function Casts(targets: seq<string>, c: Column): Expr {
    if targets == [] then Col(c) else App(Cast(targets[0]), [Casts(targets[1..], c)])
  }

  lemma {:induction false} CastsUnwrap(targets: seq<string>, c: Column)
    ensures Unwrap(Casts(targets, c)) == Some(c)
  {
    if targets != [] {
      CastsUnwrap(targets[1..], c);
    }
  }

  lemma {:induction false} UnwrapsCasts(e: Expr) returns (targets: seq<string>)
    requires Unwrap(e).Some?
    ensures e == Casts(targets, Unwrap(e).value)
  {
    if e.Col? {
      targets := [];
    } else {
      var rest := UnwrapsCasts(e.args[0]);
      targets := [e.fn.target] + rest;
      assert targets[1..] == rest && e.args == [e.args[0]];
    }
  }

  /** The joins that can be replaced are the equalities between columns of different tables, each below any casts. */
  lemma {:induction false} CanWrapExactly(p: Expr)
    ensures CanWrap(p) <==> exists ts, us, a: Column, b: Column ::
      p == Cmp(Equal, Casts(ts, a), Casts(us, b)) && a.table != b.table
  {
    hide *;
    if CanWrap(p) {
      WrappedParts(p);
      var ts := UnwrapsCasts(p.lhs);
      var us := UnwrapsCasts(p.rhs);
      WrappedIsEdge(p);
      assert p == Cmp(Equal, Casts(ts, Unwrap(p.lhs).value), Casts(us, Unwrap(p.rhs).value));
    }
    if ts, us, a, b :| p == Cmp(Equal, Casts(ts, a), Casts(us, b)) && a.table != b.table {
      CastsUnwrap(ts, a);
      CastsUnwrap(us, b);
      UnwrapColumns(p.lhs);
      UnwrapColumns(p.rhs);
      JoinedTables(p, a.table, b.table);
      WrapsWith(p);
    }
  }

  lemma {:induction false} WrapsWith(p: Expr)
    requires p.Cmp? && p.op == Equal && IsJoin(p) && Unwrap(p.lhs).Some? && Unwrap(p.rhs).Some?
    ensures CanWrap(p)
  {
    hide IsJoin;
    hide Unwrap;
  }

  /** The edges are the equalities over exactly two columns, of different tables. */
  lemma {:induction false} IsEdgeExactly(p: Expr)
    ensures IsEdge(p) <==>
      p.Cmp? && p.op == Equal && exists a: Column, b: Column :: a.table != b.table && Columns(p) == {a, b}
  {
    hide *;
    if IsEdge(p) {
      EdgeIsCmp(p);
      var a, b := TwoColumns(Columns(p));
      EdgeTables(p, a, b);
    }
    if p.Cmp? && p.op == Equal {
      if a: Column, b: Column :| a.table != b.table && Columns(p) == {a, b} {
        TablesOfTwo(p, a, b);
        ComparisonJoins(p);
        assert |{a, b}| == 2;
        EdgeFrom(p);
      }
    }
  }

  lemma {:induction false} TwoColumns(cs: set<Column>) returns (a: Column, b: Column)
    requires |cs| == 2
    ensures cs == {a, b}
  {
    a :| a in cs;
    assert |cs - {a}| == 1;
    b :| b in cs - {a};
    assert |cs - {a} - {b}| == 0;
  }

  lemma {:induction false} TablesOfTwo(p: Expr, a: Column, b: Column)
    requires Columns(p) == {a, b} && a.table != b.table
    ensures |Tables(p)| > 1
  {
    hide Columns;
    assert Tables(p) == {a.table, b.table};
  }

  // ----- classes -----

  /** Every edge lies in one class; the classes are disjoint and hold columns on edges only. */
  ghost predicate Partitions(edges: set<set<Column>>, classes: set<set<Column>>) {
    && (forall k, a :: k in classes && a in k ==> exists e :: e in edges && a in e)
    && (forall e :: e in edges ==> exists k :: k in classes && e <= k)
    && (forall k, l, a :: k in classes && l in classes && a in k && a in l ==> k == l)
  }

  /** The classes are the connected components of the columns on edges. */
  ghost predicate AreClasses(edges: set<set<Column>>, classes: set<set<Column>>) {
    && (forall k, a, b :: k in classes && a in k && b in k ==> Graph.Connected(edges, a, b))
    && Partitions(edges, classes)
  }

  function Union(sets: set<set<Column>>): set<Column> { set k, a | k in sets && a in k :: a }

  function Touched(classes: set<set<Column>>, e: set<Column>): set<set<Column>> {
    set k | k in classes && exists x :: x in k && x in e
  }

  function MergeEdge(classes: set<set<Column>>, e: set<Column>): set<set<Column>> {
    classes - Touched(classes, e) + {Union(Touched(classes, e)) + e}
  }

  lemma {:induction false} NoClasses()
    ensures AreClasses({}, {})
  {}

  /** `determine_join_equivalence_classes`: an edge merges the classes it touches. */
  method DetermineJoinEquivalenceClasses(joins: set<Expr>) returns (classes: set<set<Column>>)
    ensures AreClasses(Edges(joins), classes)
  {
    classes := {};
    hide *;
    NoClasses();
    var todo := Edges(joins);
    ghost var done: set<set<Column>> := {};
    while todo != {}
      invariant done + todo == Edges(joins)
      invariant AreClasses(done, classes)
    {
      var e :| e in todo;
      todo := todo - {e};
      MergeKeepsClasses(done, classes, e);
      classes := MergeEdge(classes, e);
      done := done + {e};
    }
  }

  lemma {:induction false} MergeKeepsClasses(edges: set<set<Column>>, classes: set<set<Column>>, e: set<Column>)
    requires AreClasses(edges, classes)
    ensures AreClasses(edges + {e}, MergeEdge(classes, e))
  {
    var grown, touched := edges + {e}, Touched(classes, e);
    var merged, result := Union(touched) + e, MergeEdge(classes, e);
    hide AreClasses;
    forall k, a, b | k in result && a in k && b in k ensures Graph.Connected(grown, a, b) {
      if k == merged {
        MergedIsConnected(edges, classes, e, a, b);
      } else {
        ClassIsConnected(edges, classes, k, a, b);
        EdgesGrow(edges, grown, a, b);
      }
    }
    ClassesPartition(edges, classes);
    MergedMembers(edges, classes, e);
    MembersAreClasses(grown, result);
  }

  lemma {:induction false} MembersAreClasses(edges: set<set<Column>>, classes: set<set<Column>>)
    requires forall k, a, b :: k in classes && a in k && b in k ==> Graph.Connected(edges, a, b)
    requires Partitions(edges, classes)
    ensures AreClasses(edges, classes)
  {}

  lemma {:induction false} ClassesPartition(edges: set<set<Column>>, classes: set<set<Column>>)
    requires AreClasses(edges, classes)
    ensures Partitions(edges, classes)
  {}

  lemma {:induction false} ClassIsConnected(edges: set<set<Column>>, classes: set<set<Column>>, k: set<Column>,
      a: Column, b: Column)
    requires AreClasses(edges, classes) && k in classes && a in k && b in k
    ensures Graph.Connected(edges, a, b)
  {}

  lemma {:induction false} MergedMembers(edges: set<set<Column>>, classes: set<set<Column>>, e: set<Column>)
    requires Partitions(edges, classes)
    ensures Partitions(edges + {e}, MergeEdge(classes, e))
  {
    var grown, result := edges + {e}, MergeEdge(classes, e);
    forall k, a | k in result && a in k ensures exists x :: x in grown && a in x {
      MemberOnEdge(edges, classes, e, k, a);
    }
    forall x | x in grown ensures exists k :: k in result && x <= k {
      EdgeInClass(edges, classes, e, x);
    }
    forall k, l, a | k in result && l in result && a in k && a in l ensures k == l {
      OneClass(edges, classes, e, k, l, a);
    }
  }

  lemma {:induction false} MemberOnEdge(edges: set<set<Column>>, classes: set<set<Column>>, e: set<Column>,
      k: set<Column>, a: Column)
    requires Partitions(edges, classes) && k in MergeEdge(classes, e) && a in k
    ensures exists x :: x in edges + {e} && a in x
  {
    if a in e {
      assert e in edges + {e};
    } else {
      var l :| l in classes && a in l;
      var x :| x in edges && a in x;
      assert x in edges + {e};
    }
  }

  lemma {:induction false} EdgeInClass(edges: set<set<Column>>, classes: set<set<Column>>, e: set<Column>,
      x: set<Column>)
    requires Partitions(edges, classes) && x in edges + {e}
    ensures exists k :: k in MergeEdge(classes, e) && x <= k
  {
    var merged := Union(Touched(classes, e)) + e;
    assert merged in MergeEdge(classes, e);
    if x != e {
      var k :| k in classes && x <= k;
      hide Partitions;
      if k in Touched(classes, e) {
        assert k <= merged;
      } else {
        assert k in MergeEdge(classes, e);
      }
    }
  }

  lemma {:induction false} OneClass(edges: set<set<Column>>, classes: set<set<Column>>, e: set<Column>,
      k: set<Column>, l: set<Column>, a: Column)
    requires Partitions(edges, classes)
    requires k in MergeEdge(classes, e) && l in MergeEdge(classes, e) && a in k && a in l
    ensures k == l
  {
    var touched := Touched(classes, e);
    var merged := Union(touched) + e;
    if k != merged {
      NotInMerged(edges, classes, e, k, a);
    }
    if l != merged {
      NotInMerged(edges, classes, e, l, a);
    }
  }

  lemma {:induction false} NotInMerged(edges: set<set<Column>>, classes: set<set<Column>>, e: set<Column>,
      k: set<Column>, a: Column)
    requires Partitions(edges, classes) && k in classes - Touched(classes, e) && a in k
    ensures a !in Union(Touched(classes, e)) + e
  {}

  lemma {:induction false} MergedIsConnected(edges: set<set<Column>>, classes: set<set<Column>>, e: set<Column>,
      a: Column, b: Column)
    requires AreClasses(edges, classes)
    requires a in Union(Touched(classes, e)) + e && b in Union(Touched(classes, e)) + e
    ensures Graph.Connected(edges + {e}, a, b)
  {
    var grown := edges + {e};
    hide AreClasses;
    var x := ReachesEdge(edges, classes, e, a);
    var y := ReachesEdge(edges, classes, e, b);
    assert e in grown;
    Graph.Step(grown, x, y);
    Graph.Reversed(grown, b, y);
    Graph.Join(grown, a, x, y);
    Graph.Join(grown, a, y, b);
  }

  lemma {:induction false} ReachesEdge(edges: set<set<Column>>, classes: set<set<Column>>, e: set<Column>, a: Column)
    returns (x: Column)
    requires AreClasses(edges, classes) && a in Union(Touched(classes, e)) + e
    ensures x in e && Graph.Connected(edges + {e}, a, x)
  {
    if a in e {
      x := a;
      Graph.Self(edges + {e}, a);
    } else {
      var k :| k in Touched(classes, e) && a in k;
      x :| x in k && x in e;
      EdgesGrow(edges, edges + {e}, a, x);
    }
  }

  lemma {:induction false} EdgesGrow(edges: set<set<Column>>, grown: set<set<Column>>, a: Column, b: Column)
    requires edges <= grown && Graph.Connected(edges, a, b)
    ensures Graph.Connected(grown, a, b)
  {
    forall e, x, y | e in edges && x in e && y in e ensures Graph.Connected(grown, x, y) {
      assert e in grown;
      Graph.Step(grown, x, y);
    }
    Graph.Within(edges, grown, a, b);
  }

  ghost predicate OnEdge(edges: set<set<Column>>, a: Column) { exists e :: e in edges && a in e }

  /** Two columns are in one class iff they are connected and lie on edges. */
  lemma {:induction false} ClassesAreComponents(edges: set<set<Column>>, classes: set<set<Column>>, a: Column,
      b: Column)
    requires AreClasses(edges, classes)
    ensures (exists k :: k in classes && a in k && b in k)
       <==> OnEdge(edges, a) && OnEdge(edges, b) && Graph.Connected(edges, a, b)
  {
    if OnEdge(edges, a) && Graph.Connected(edges, a, b) {
      var e :| e in edges && a in e;
      var k :| k in classes && e <= k;
      forall x, u, v | x in edges && u in x && v in x && u in k ensures v in k {
        var l :| l in classes && x <= l;
      }
      Graph.Stays(edges, k, a, b);
    }
  }

  // ----- implied joins -----

  /** Two different columns that are connected through edges. */
  ghost predicate Implied(edges: set<set<Column>>, a: Column, b: Column) {
    a != b && OnEdge(edges, a) && OnEdge(edges, b) && Graph.Connected(edges, a, b)
  }

  ghost predicate IsImplied(edges: set<set<Column>>, p: Expr) {
    p.Cmp? && p.lhs.Col? && p.rhs.Col? && p.op == Equal && Implied(edges, p.lhs.column, p.rhs.column)
  }

  ghost predicate OneOrder(ecs: set<Expr>, a: Column, b: Column) { (Eq(a, b) in ecs) != (Eq(b, a) in ecs) }

  ghost predicate IsPair(k: set<Column>, p: Expr) {
    && p.Cmp? && p.lhs.Col? && p.rhs.Col? && p.op == Equal
    && p.lhs.column in k && p.rhs.column in k && p.lhs.column != p.rhs.column
  }

  /** One equality for every pair of different columns of a class, in one of the two orders. */
  ghost predicate AreImplied(edges: set<set<Column>>, ecs: set<Expr>) {
    && (forall p :: p in ecs ==> IsImplied(edges, p))
    && forall a, b :: Implied(edges, a, b) ==> OneOrder(ecs, a, b)
  }

  ghost predicate PairsOf(k: set<Column>, ecs: set<Expr>) {
    && (forall p :: p in ecs ==> IsPair(k, p))
    && forall a, b :: a in k && b in k && a != b ==> OneOrder(ecs, a, b)
  }

  /** The pairs of a class, in any order. */
  method Pairs(k: set<Column>) returns (ecs: set<Expr>)
    ensures PairsOf(k, ecs)
  {
    ecs := {};
    var todo, done: set<Column> := k, {};
    while todo != {}
      invariant done + todo == k && done !! todo && PairsOf(done, ecs)
    {
      var a :| a in todo;
      todo := todo - {a};
      PairsWith(done, ecs, a);
      ecs := ecs + set b | b in done :: Eq(a, b);
      done := done + {a};
    }
  }

  lemma {:induction false} PairsWith(k: set<Column>, ecs: set<Expr>, a: Column)
    requires PairsOf(k, ecs) && a !in k
    ensures PairsOf(k + {a}, ecs + set b | b in k :: Eq(a, b))
  {
    var grown := ecs + set b | b in k :: Eq(a, b);
    forall b | b in k ensures Eq(a, b) in grown && Eq(b, a) !in grown && Eq(a, b) !in ecs {}
    forall x, y | x in k && y in k ensures Eq(x, y) in grown <==> Eq(x, y) in ecs {}
  }

  /** `generate_predicates_for_equivalence_classes` */
  method GeneratePredicates(ghost edges: set<set<Column>>, classes: set<set<Column>>) returns (ecs: set<Expr>)
    requires AreClasses(edges, classes)
    ensures AreImplied(edges, ecs)
  {
    ecs := {};
    var todo := classes;
    ghost var done: set<set<Column>> := {};
    while todo != {}
      invariant done + todo == classes && done !! todo
      invariant forall p :: p in ecs ==> exists k :: k in done && IsPair(k, p)
      invariant forall k, a, b :: k in done && a in k && b in k && a != b ==> OneOrder(ecs, a, b)
    {
      var k :| k in todo;
      todo := todo - {k};
      var pairs := Pairs(k);
      NewPairs(edges, classes, done, k, ecs, pairs);
      ecs := ecs + pairs;
      done := done + {k};
    }
    PairsAreImplied(edges, classes, ecs);
  }

  lemma {:induction false} NewPairs(edges: set<set<Column>>, classes: set<set<Column>>, done: set<set<Column>>,
      k: set<Column>, ecs: set<Expr>, pairs: set<Expr>)
    requires AreClasses(edges, classes) && done <= classes && k in classes && k !in done && PairsOf(k, pairs)
    requires forall p :: p in ecs ==> exists l :: l in done && IsPair(l, p)
    requires forall l, a, b :: l in done && a in l && b in l && a != b ==> OneOrder(ecs, a, b)
    ensures forall p :: p in ecs + pairs ==>
      exists l :: l in done + {k} && IsPair(l, p)
    ensures forall l, a, b :: l in done + {k} && a in l && b in l && a != b ==>
      OneOrder(ecs + pairs, a, b)
  {
    forall p | p in pairs ensures exists l :: l in done + {k} && IsPair(l, p) {
      assert k in done + {k} && IsPair(k, p);
    }
    forall p | p in ecs ensures exists l :: l in done + {k} && IsPair(l, p) {
      var l :| l in done && IsPair(l, p);
      assert l in done + {k};
    }
    forall l, a, b | l in done + {k} && a in l && b in l && a != b
      ensures l == k ==> Eq(a, b) !in ecs
      ensures l != k ==> Eq(a, b) !in pairs
    {
    }
  }

  lemma {:induction false} PairsAreImplied(edges: set<set<Column>>, classes: set<set<Column>>, ecs: set<Expr>)
    requires AreClasses(edges, classes)
    requires forall p :: p in ecs ==> exists k :: k in classes && IsPair(k, p)
    requires forall k, a, b :: k in classes && a in k && b in k && a != b ==> OneOrder(ecs, a, b)
    ensures AreImplied(edges, ecs)
  {
    forall p | p in ecs ensures IsImplied(edges, p) {
      var k :| k in classes && IsPair(k, p);
      var a, b := p.lhs.column, p.rhs.column;
      ClassesAreComponents(edges, classes, a, b);
      assert Implied(edges, a, b);
    }
    forall a, b | Implied(edges, a, b) ensures OneOrder(ecs, a, b) {
      ClassesAreComponents(edges, classes, a, b);
    }
  }

  // ----- the WHERE clause -----

  /** `r` has the conjuncts of an expansion of `p` by the equalities `ecs`. */
  ghost predicate ExpandsBy(p: Expr, r: Expr, ecs: set<Expr>) {
    AreImplied(Edges(Joins(p)), ecs) && Conjuncts(r) == ecs + Complex(Joins(p)) + Filters(p)
  }

  /** The joins of a WHERE clause with what they imply, and all its other conjuncts. */
  ghost predicate IsExpansion(p: Expr, r: Expr) {
    IsPredicate(r) && exists ecs :: ExpandsBy(p, r, ecs)
  }

  /** Some part is left: a join that is dropped has an equality in its place. */
  lemma {:induction false} SomethingLeft(p: Expr, ecs: set<Expr>)
    requires IsPredicate(p) && AreImplied(Edges(Joins(p)), ecs)
    ensures ecs + Complex(Joins(p)) + Filters(p) != {}
  {
    var c := SomeConjunct(p);
    if IsJoin(c) {
      assert c in Joins(p);
      if CanWrap(c) {
        WrappedIsImplied(Joins(p), c);
        var a, b := Unwrap(c.lhs).value, Unwrap(c.rhs).value;
        hide *;
        assert OneOrder(ecs, a, b) by {
          ImpliedOnce(Edges(Joins(p)), ecs, a, b);
        }
        OneIsThere(ecs, a, b);
      } else {
        assert c in Complex(Joins(p));
      }
    } else {
      assert c in Filters(p);
    }
  }

  lemma {:induction false} ImpliedOnce(edges: set<set<Column>>, ecs: set<Expr>, a: Column, b: Column)
    requires AreImplied(edges, ecs) && Implied(edges, a, b)
    ensures OneOrder(ecs, a, b)
  {}

  lemma {:induction false} OneIsThere(ecs: set<Expr>, a: Column, b: Column)
    requires OneOrder(ecs, a, b)
    ensures ecs != {}
  {}

  lemma {:induction false} UnwrapColumns(e: Expr)
    requires Unwrap(e).Some?
    ensures Columns(e) == {Unwrap(e).value} && Tables(e) == {Unwrap(e).value.table}
  {
    if !e.Col? {
      UnwrapColumns(e.args[0]);
      assert Kids(e) == [e.args[0]];
    }
  }

  /** A join that can be wrapped is an edge between the columns below its casts. */
  lemma {:induction false} WrappedIsEdge(j: Expr)
    requires CanWrap(j)
    ensures IsEdge(j)
    ensures Columns(j) == {Unwrap(j.lhs).value, Unwrap(j.rhs).value}
    ensures Unwrap(j.lhs).value.table != Unwrap(j.rhs).value.table
  {
    hide *;
    WrappedParts(j);
    UnwrapColumns(j.lhs);
    UnwrapColumns(j.rhs);
    OperandColumns(j);
    var a, b := Unwrap(j.lhs).value, Unwrap(j.rhs).value;
    JoinedTables(j, a.table, b.table);
    assert Columns(j) == {a, b} && |{a, b}| == 2;
    EdgeFrom(j);
  }

  lemma {:induction false} WrappedParts(j: Expr)
    requires CanWrap(j)
    ensures j.Cmp? && j.op == Equal && IsJoin(j) && Unwrap(j.lhs).Some? && Unwrap(j.rhs).Some?
  {
    hide IsJoin;
    hide Unwrap;
  }

  lemma {:induction false} EdgeFrom(j: Expr)
    requires j.Cmp? && j.op == Equal && IsJoin(j) && |Columns(j)| == 2
    ensures IsEdge(j)
  {
    hide IsJoin;
    hide Columns;
  }

  lemma {:induction false} JoinedTables(j: Expr, t: Table, u: Table)
    requires j.Cmp? && Tables(j.lhs) == {t} && Tables(j.rhs) == {u}
    ensures IsJoin(j) <==> t != u
  {
    hide Tables;
    assert |{t}| == 1 && |{u}| == 1;
  }

  lemma {:induction false} OperandColumns(j: Expr)
    requires j.Cmp?
    ensures Columns(j) == Columns(j.lhs) + Columns(j.rhs)
  {
    assert Kids(j) == [j.lhs, j.rhs];
  }

  lemma {:induction false} EdgeIsImplied(js: set<Expr>, j: Expr, a: Column, b: Column)
    requires j in js && IsEdge(j) && Columns(j) == {a, b} && a != b
    ensures Implied(Edges(js), a, b)
  {
    hide IsEdge;
    assert Columns(j) in Edges(js);
    Graph.Step(Edges(js), a, b);
  }

  lemma {:induction false} WrappedIsImplied(js: set<Expr>, j: Expr)
    requires j in js && CanWrap(j)
    ensures Implied(Edges(js), Unwrap(j.lhs).value, Unwrap(j.rhs).value)
  {
    WrappedIsEdge(j);
    EdgeIsImplied(js, j, Unwrap(j.lhs).value, Unwrap(j.rhs).value);
  }

  lemma {:induction false} JoinsAreExactly(cs: set<Expr>)
    requires forall c :: c in cs ==> IsPredicate(c)
    ensures forall c :: c in cs ==> (IsJoin(c) <==> JoinsSomewhere(c))
  {
    forall c | c in cs ensures IsJoin(c) <==> JoinsSomewhere(c) {
      IsJoinExactly(c);
    }
  }

  lemma {:induction false} ConjunctsArePredicates(p: Expr)
    requires IsPredicate(p)
    ensures forall c :: c in Conjuncts(p) ==> IsPredicate(c)
  {
    forall c | c in Conjuncts(p) ensures IsPredicate(c) {
      ConjunctIsFlat(p, c);
    }
  }

  /** `add_ec_predicates` on a WHERE clause: fails exactly if a conjunct that is no comparison joins tables. */
  method AddEcPredicates(where: Expr) returns (r: Result<Expr>)
    requires IsPredicate(where)
    ensures r.Failure? <==> exists c :: c in Conjuncts(where) && !c.Cmp? && JoinsSomewhere(c)
    ensures r.Success? ==> IsExpansion(where, r.value)
  {
    hide *;
    ConjunctsArePredicates(where);
    JoinsAreExactly(Conjuncts(where));
    JoinsAre(where);
    var joins := Joins(where);
    if exists j :: j in joins && !j.Cmp? {
      return Failure;
    }
    var classes := DetermineJoinEquivalenceClasses(joins);
    var ecs := GeneratePredicates(Edges(joins), classes);
    SomethingLeft(where, ecs);
    var all := ListOfSet(ecs + Complex(joins) + Filters(where));
    ExpansionOf(where, ecs, all);
    r := Success(CreateAnd(all).value);
  }

  lemma {:induction false} JoinsAre(p: Expr)
    ensures forall j :: j in Joins(p) <==> j in Conjuncts(p) && IsJoin(j)
  {
    hide Conjuncts;
    hide IsJoin;
  }

  lemma {:induction false} ExpansionOf(p: Expr, ecs: set<Expr>, all: seq<Expr>)
    requires IsPredicate(p) && AreImplied(Edges(Joins(p)), ecs) && all != []
    requires forall e :: e in all <==> e in ecs + Complex(Joins(p)) + Filters(p)
    ensures IsExpansion(p, CreateAnd(all).value)
  {
    var parts := ecs + Complex(Joins(p)) + Filters(p);
    forall e | e in parts ensures IsPredicate(e) && Conjuncts(e) == {e} {
      if e in ecs {
        ImpliedIsFlat(Edges(Joins(p)), ecs, e);
      } else {
        ConjunctIsFlat(p, e);
      }
    }
    hide *;
    CreateAndParts(all);
    assert SeqSet(all) == parts by {
      ElementsOf(all, parts);
    }
    FlatParts(parts);
    ExpansionIs(p, CreateAnd(all).value, ecs);
  }

  lemma {:induction false} ExpansionIs(p: Expr, r: Expr, ecs: set<Expr>)
    requires IsPredicate(r)
    requires AreImplied(Edges(Joins(p)), ecs) && Conjuncts(r) == ecs + Complex(Joins(p)) + Filters(p)
    ensures IsExpansion(p, r)
  {
    hide AreImplied;
    hide Conjuncts;
    hide Joins;
    assert ExpandsBy(p, r, ecs);
  }

  lemma {:induction false} ElementsOf(all: seq<Expr>, parts: set<Expr>)
    requires forall e :: e in all <==> e in parts
    ensures SeqSet(all) == parts
  {}

  lemma {:induction false} ImpliedIsFlat(edges: set<set<Column>>, ecs: set<Expr>, e: Expr)
    requires AreImplied(edges, ecs) && e in ecs
    ensures IsPredicate(e) && Conjuncts(e) == {e}
  {}

  lemma {:induction false} FlatParts(parts: set<Expr>)
    requires forall e :: e in parts ==> Conjuncts(e) == {e}
    ensures AllConjuncts(parts) == parts
  {
    hide Conjuncts;
  }

  lemma {:induction false} SameParts(p: Expr, same: Expr)
    requires Conjuncts(p) == Conjuncts(same)
    ensures Joins(p) == Joins(same) && Filters(p) == Filters(same)
  {
    hide Conjuncts;
    hide IsJoin;
  }

  lemma {:induction false} SameExpandsBy(p: Expr, same: Expr, r: Expr, ecs: set<Expr>)
    requires Joins(p) == Joins(same) && Filters(p) == Filters(same) && ExpandsBy(same, r, ecs)
    ensures ExpandsBy(p, r, ecs)
  {
    hide Joins;
    hide Filters;
    hide Edges;
    hide Complex;
    hide Conjuncts;
    hide AreImplied;
  }

  /** The expansion depends on the conjuncts of a WHERE clause only. */
  lemma {:induction false} SameConjunctsExpand(p: Expr, same: Expr, r: Expr)
    requires Conjuncts(p) == Conjuncts(same) && IsExpansion(same, r)
    ensures IsExpansion(p, r)
  {
    hide ExpandsBy;
    hide IsPredicate;
    hide Conjuncts;
    SameParts(p, same);
    var ecs :| ExpandsBy(same, r, ecs);
    SameExpandsBy(p, same, r, ecs);
  }

  // ----- what the expansion keeps -----

  /** The joins that make edges between the columns that they compare. */
  function BareJoins(js: set<Expr>): set<Expr> { set j | j in js && IsEdge(j) && IsBare(j) }

  /** A join that stays, and whose columns are connected through bare joins anyway. */
  ghost predicate IsRedundant(js: set<Expr>, j: Expr) {
    && !CanWrap(j)
    && forall a, b :: a in Columns(j) && b in Columns(j) ==> Graph.Connected(Edges(BareJoins(js)), a, b)
  }

  /** Edges compare bare columns or connect nothing new, or else some edge compares with NULL and is never True. */
  ghost predicate SafeEdges(js: set<Expr>) {
    || (exists j :: j in js && IsEdge(j) && ComparesNull(j))
    || (forall j :: j in js && IsEdge(j) ==> IsBare(j) || IsRedundant(js, j))
  }

  lemma {:induction false} EqHolds(w: World, a: Column, b: Column, r: Row)
    ensures Holds(w, Eq(a, b), r) == True <==>
      ColumnValue(r, a) == ColumnValue(r, b) && !ColumnValue(r, a).Null?
  {
    var e := Eq(a, b);
    assert EvalKids(w, e, r) == [Eval(w, Col(a), r), Eval(w, Col(b), r)];
  }

  lemma {:induction false} NullIsNotTrue(w: World, j: Expr, r: Row)
    requires ComparesNull(j) && j.op == Equal
    ensures Holds(w, j, r) != True
  {
    var vs := EvalKids(w, j, r);
    assert vs == [Eval(w, j.lhs, r), Eval(w, j.rhs, r)];
    assert Eval(w, Lit(Null), r) == Null;
  }

  /** An edge that is True makes its columns equal. */
  lemma {:induction false} EdgeIsTrue(w: World, j: Expr, r: Row, a: Column, b: Column)
    requires IsEdge(j) && (IsBare(j) || ComparesNull(j)) && Holds(w, j, r) == True && a in Columns(j) && b in Columns(j)
    ensures ColumnValue(r, a) == ColumnValue(r, b) && !ColumnValue(r, a).Null?
  {
    hide Holds;
    EdgeIsCmp(j);
    hide IsEdge;
    hide Columns;
    hide ColumnValue;
    if ComparesNull(j) {
      NullIsNotTrue(w, j, r);
    } else {
      OperandColumns(j);
      OwnColumn(j.lhs.column);
      OwnColumn(j.rhs.column);
      EqHolds(w, j.lhs.column, j.rhs.column, r);
    }
  }

  function Vertices(edges: set<set<Column>>): set<Column> { set e, c | e in edges && c in e :: c }

  lemma {:induction false} ConnectedIsOnEdge(edges: set<set<Column>>, a: Column, b: Column)
    requires Graph.Connected(edges, a, b) && a != b
    ensures OnEdge(edges, a)
  {
    var path :| Graph.IsPath(edges, path) && path[0] == a && path[|path| - 1] == b;
    assert Graph.Adjacent(edges, path[0], path[1]);
  }

  lemma {:induction false} BareEdgeAgrees(w: World, js: set<Expr>, r: Row, e: set<Column>, x: Column, y: Column)
    requires (forall j :: j in js ==> IsEdge(j) && IsBare(j)) && Satisfies(w, js, r)
    requires e in Edges(js) && x in e && y in e
    ensures ColumnValue(r, x) == ColumnValue(r, y) && !ColumnValue(r, x).Null? && y in Vertices(Edges(js))
  {
    hide Holds;
    hide IsEdge;
    hide Columns;
    var j :| j in js && IsEdge(j) && Columns(j) == e;
    EdgeIsTrue(w, j, r, x, y);
  }

  /** Where all bare joins are True, all columns that they connect are equal. */
  lemma {:induction false} ConnectedIsTrue(w: World, js: set<Expr>, r: Row, a: Column, b: Column)
    requires (forall j :: j in js ==> IsEdge(j) && IsBare(j)) && Satisfies(w, js, r)
    requires Graph.Connected(Edges(js), a, b) && a != b
    ensures Holds(w, Eq(a, b), r) == True
  {
    hide Holds;
    hide IsEdge;
    hide IsBare;
    hide Columns;
    hide Edges;
    hide ColumnValue;
    hide Satisfies;
    hide Graph.Connected;
    var edges := Edges(js);
    var same := set c | c in Vertices(edges) && ColumnValue(r, c) == ColumnValue(r, a);
    ConnectedIsOnEdge(edges, a, b);
    forall e, x, y | e in edges && x in e && y in e
      ensures ColumnValue(r, x) == ColumnValue(r, y) && !ColumnValue(r, x).Null? && y in Vertices(edges)
    {
      BareEdgeAgrees(w, js, r, e, x, y);
    }
    Graph.Stays(edges, same, a, b);
    EqHolds(w, a, b, r);
  }

  /** Bare joins connect all columns that safe edges connect. */
  lemma {:induction false} BareConnect(js: set<Expr>, a: Column, b: Column)
    requires forall j :: j in js && IsEdge(j) ==> IsBare(j) || IsRedundant(js, j)
    requires Graph.Connected(Edges(js), a, b)
    ensures Graph.Connected(Edges(BareJoins(js)), a, b)
  {
    var bare := Edges(BareJoins(js));
    hide IsEdge;
    hide Columns;
    hide CanWrap;
    forall e, x, y | e in Edges(js) && x in e && y in e ensures Graph.Connected(bare, x, y) {
      var j :| j in js && IsEdge(j) && Columns(j) == e;
      if IsBare(j) {
        assert j in BareJoins(js) && e in bare;
        Graph.Step(bare, x, y);
      }
    }
    Graph.Within(Edges(js), bare, a, b);
  }

  /** Where all edges are True, all implied equalities are. */
  lemma {:induction false} ImpliedIsTrue(w: World, js: set<Expr>, r: Row, a: Column, b: Column)
    requires forall j :: j in js && IsEdge(j) ==> IsBare(j) || IsRedundant(js, j)
    requires Satisfies(w, js, r) && Implied(Edges(js), a, b)
    ensures Holds(w, Eq(a, b), r) == True
  {
    BareConnect(js, a, b);
    hide Holds;
    hide IsRedundant;
    hide IsEdge;
    ConnectedIsTrue(w, BareJoins(js), r, a, b);
  }

  /** A comparison with NULL stays, and nothing is True with it. */
  lemma {:induction false} NullStays(w: World, p: Expr, ecs: set<Expr>, j: Expr, row: Row)
    requires j in Joins(p) && IsEdge(j) && ComparesNull(j)
    ensures !Satisfies(w, Conjuncts(p), row) && !Satisfies(w, ecs + Complex(Joins(p)) + Filters(p), row)
  {
    assert Unwrap(Lit(Null)).None?;
    assert j in Complex(Joins(p)) && j in Conjuncts(p);
    NullIsNotTrue(w, j, row);
  }

  /** On a WHERE clause with safe edges, the expansion is True on the same rows. */
  lemma {:induction false} ExpansionIsTrue(w: World, p: Expr, r: Expr, row: Row)
    requires IsPredicate(p) && IsExpansion(p, r) && SafeEdges(Joins(p))
    ensures Holds(w, r, row) == True <==> Holds(w, p, row) == True
  {
    TrueByConjuncts(w, p, row);
    TrueByConjuncts(w, r, row);
    var ecs :| ExpandsBy(p, r, ecs);
    hide Holds;
    hide Conjuncts;
    hide IsRedundant;
    hide Joins;
    hide Satisfies;
    if j :| j in Joins(p) && IsEdge(j) && ComparesNull(j) {
      NullStays(w, p, ecs, j, row);
    } else {
      if Satisfies(w, Conjuncts(p), row) {
        OriginalImplies(w, p, ecs, row);
      }
      if Satisfies(w, Conjuncts(r), row) {
        ExpansionImplies(w, p, ecs, row);
      }
    }
  }

  lemma {:induction false} OriginalImplies(w: World, p: Expr, ecs: set<Expr>, row: Row)
    requires AreImplied(Edges(Joins(p)), ecs) && Satisfies(w, Conjuncts(p), row)
    requires forall j :: j in Joins(p) && IsEdge(j) ==> IsBare(j) || IsRedundant(Joins(p), j)
    ensures Satisfies(w, ecs + Complex(Joins(p)) + Filters(p), row)
  {
    hide Holds;
    hide Conjuncts;
    hide IsJoin;
    hide CanWrap;
    hide IsRedundant;
    hide Edges;
    forall e | e in ecs ensures Holds(w, e, row) == True {
      ImpliedIsTrue(w, Joins(p), row, e.lhs.column, e.rhs.column);
    }
  }

  lemma {:induction false} ExpansionImplies(w: World, p: Expr, ecs: set<Expr>, row: Row)
    requires AreImplied(Edges(Joins(p)), ecs)
    requires forall j :: j in Joins(p) && IsEdge(j) ==> IsBare(j) || IsRedundant(Joins(p), j)
    requires Satisfies(w, ecs + Complex(Joins(p)) + Filters(p), row)
    ensures Satisfies(w, Conjuncts(p), row)
  {
    forall c | c in Conjuncts(p) ensures Holds(w, c, row) == True {
      if c in Joins(p) && CanWrap(c) {
        WrappedIsBare(Joins(p), c);
        DroppedIsTrue(w, Joins(p), ecs, c, row);
      }
      hide Holds;
      hide Conjuncts;
      hide CanWrap;
      hide IsJoin;
      assert c in Joins(p) || c in Filters(p);
    }
  }

  lemma {:induction false} WrappedIsBare(js: set<Expr>, j: Expr)
    requires forall k :: k in js && IsEdge(k) ==> IsBare(k) || IsRedundant(js, k)
    requires j in js && CanWrap(j)
    ensures IsBare(j)
  {
    WrappedIsEdge(j);
    hide IsEdge;
    hide CanWrap;
  }

  lemma {:induction false} WrappedBare(j: Expr) returns (a: Column, b: Column)
    requires CanWrap(j) && IsBare(j)
    ensures j == Eq(a, b) && Unwrap(j.lhs) == Some(a) && Unwrap(j.rhs) == Some(b)
  {
    hide IsJoin;
    a, b := Unwrap(j.lhs).value, Unwrap(j.rhs).value;
  }

  lemma {:induction false} DroppedIsBare(js: set<Expr>, j: Expr) returns (a: Column, b: Column)
    requires IsBare(j) && j in js && CanWrap(j)
    ensures j == Eq(a, b) && Implied(Edges(js), a, b)
  {
    hide *;
    WrappedIsEdge(j);
    WrappedIsImplied(js, j);
    a, b := WrappedBare(j);
  }

  lemma {:induction false} OneOrderIsTrue(w: World, ecs: set<Expr>, a: Column, b: Column, row: Row)
    requires OneOrder(ecs, a, b) && Satisfies(w, ecs, row)
    ensures Holds(w, Eq(a, b), row) == True
  {
    hide Holds;
    EqHolds(w, a, b, row);
    EqHolds(w, b, a, row);
  }

  /** A join that the expansion drops is bare, and its equality is still there in one of its orders. */
  lemma {:induction false} DroppedIsTrue(w: World, js: set<Expr>, ecs: set<Expr>, j: Expr, row: Row)
    requires AreImplied(Edges(js), ecs) && IsBare(j) && Satisfies(w, ecs, row) && j in js && CanWrap(j)
    ensures Holds(w, j, row) == True
  {
    hide *;
    var a, b := DroppedIsBare(js, j);
    ImpliedOnce(Edges(js), ecs, a, b);
    OneOrderIsTrue(w, ecs, a, b, row);
  }

  // ----- when an edge is sound -----

  /** A world in which every operator yields the same value. */
  ghost function Constant(v: Value): World {
    World((fn: Fn, vs: seq<Value>) => v, (x: Value, y: Value) => true, (name: string, x: Value, y: Value) => True)
  }

  /** An operand is a column, a literal, or built by an operator. */
  predicate PlainOperand(e: Expr) { e.Col? || e.Lit? || e.App? }

  predicate PlainEdge(j: Expr, a: Column, b: Column) {
    IsEdge(j) && Columns(j) == {a, b} && PlainOperand(j.lhs) && PlainOperand(j.rhs)
  }

  lemma {:induction false} EdgeTables(j: Expr, a: Column, b: Column)
    requires IsEdge(j) && Columns(j) == {a, b}
    ensures a.table != b.table
  {
    OperandColumns(j);
    if a.table == b.table {
      OneTable(j.lhs, a, b);
      OneTable(j.rhs, a, b);
      hide Tables;
      hide Columns;
      NoJoin(j, a.table);
    }
  }

  lemma {:induction false} OneTable(e: Expr, a: Column, b: Column)
    requires Columns(e) <= {a, b} && a.table == b.table
    ensures Tables(e) <= {a.table}
  {
    hide Columns;
  }

  lemma {:induction false} NoJoin(j: Expr, t: Table)
    requires j.Cmp? && Tables(j.lhs) <= {t} && Tables(j.rhs) <= {t}
    ensures !IsJoin(j)
  {
    hide Tables;
    assert Tables(j.lhs) == {} || Tables(j.lhs) == {t};
    assert Tables(j.rhs) == {} || Tables(j.rhs) == {t};
    assert |{t}| == 1;
  }

  lemma {:induction false} CmpHoldsAt(w: World, j: Expr, r: Row, x: Value, y: Value)
    requires j.Cmp? && j.op == Equal && Eval(w, j.lhs, r) == x && Eval(w, j.rhs, r) == y
    ensures Holds(w, j, r) == True <==> x == y && !x.Null?
  {
    assert EvalKids(w, j, r) == [x, y];
  }

  lemma {:induction false} OperandAt(v: Value, e: Expr, r: Row)
    requires PlainOperand(e)
    ensures Eval(Constant(v), e, r) ==
      if e.Col? then ColumnValue(r, e.column) else if e.Lit? then e.literal else v
  {}

  /** For every other plain edge there are a row and a meaning of its operators that make it True, while its
      columns differ. */
  lemma {:induction false} EdgeIsUnsound(j: Expr, a: Column, b: Column) returns (w: World, r: Row)
    requires PlainEdge(j, a, b) && !IsBare(j) && !ComparesNull(j)
    ensures Holds(w, j, r) == True && Holds(w, Eq(a, b), r) != True
  {
    hide *;
    PlainIsCmp(j, a, b);
    var v := if j.lhs.Lit? then j.lhs.literal else if j.rhs.Lit? then j.rhs.literal else Num(0);
    var x := if j.lhs.Col? then j.lhs.column else if j.rhs.Col? then j.rhs.column else a;
    w := Constant(v);
    EdgeColumn(j, a, b, x);
    r := RowWith(a, b, x, v);
    EdgeAtRow(j, a, b, v, x, r);
    EqHolds(w, a, b, r);
  }

  lemma {:induction false} EdgeColumn(j: Expr, a: Column, b: Column, x: Column)
    requires PlainEdge(j, a, b)
    requires x == if j.lhs.Col? then j.lhs.column else if j.rhs.Col? then j.rhs.column else a
    ensures x in {a, b} && a.table != b.table
  {
    hide IsEdge;
    EdgeTables(j, a, b);
    EdgeIsCmp(j);
    hide Columns;
    if j.lhs.Col? {
      OperandIn(j, j.lhs);
    } else if j.rhs.Col? {
      OperandIn(j, j.rhs);
    }
  }

  lemma {:induction false} PlainIsCmp(j: Expr, a: Column, b: Column)
    requires PlainEdge(j, a, b)
    ensures j.Cmp?
  {
    hide Columns;
    hide IsJoin;
  }

  lemma {:induction false} EdgeIsCmp(j: Expr)
    requires IsEdge(j)
    ensures j.Cmp? && j.op == Equal && |Columns(j)| == 2
  {
    hide IsJoin;
    hide Columns;
  }

  lemma {:induction false} OperandIn(j: Expr, e: Expr)
    requires j.Cmp? && e in [j.lhs, j.rhs] && e.Col?
    ensures e.column in Columns(j)
  {
    OperandColumns(j);
    OwnColumn(e.column);
  }

  /** A row with different values for the columns, in which `x` is `v`. */
  lemma {:induction false} RowWith(a: Column, b: Column, x: Column, v: Value) returns (r: Row)
    requires x in {a, b} && a.table != b.table
    ensures ColumnValue(r, x) == v && ColumnValue(r, a) != ColumnValue(r, b)
  {
    var other := if v == Num(1) then Num(2) else Num(1);
    r := map[a.table := map[a.name := if x == a then v else other],
             b.table := map[b.name := if x == b then v else other]];
  }

  lemma {:induction false} EdgeAtRow(j: Expr, a: Column, b: Column, v: Value, x: Column, r: Row)
    requires PlainEdge(j, a, b) && !IsBare(j) && !ComparesNull(j)
    requires v == if j.lhs.Lit? then j.lhs.literal else if j.rhs.Lit? then j.rhs.literal else Num(0)
    requires x == if j.lhs.Col? then j.lhs.column else if j.rhs.Col? then j.rhs.column else a
    requires ColumnValue(r, x) == v
    ensures Holds(Constant(v), j, r) == True
  {
    OperandAt(v, j.lhs, r);
    OperandAt(v, j.rhs, r);
    NotOneColumn(j, a, b);
    CmpHoldsAt(Constant(v), j, r, Eval(Constant(v), j.lhs, r), Eval(Constant(v), j.rhs, r));
  }

  lemma {:induction false} NotOneColumn(j: Expr, a: Column, b: Column)
    requires PlainEdge(j, a, b)
    ensures !(j.lhs.Col? && j.rhs.Lit?) && !(j.lhs.Lit? && j.rhs.Col?) && !(j.lhs.Lit? && j.rhs.Lit?)
  {
    hide *;
    PlainHasTwo(j, a, b);
    OperandColumns(j);
    FewColumns(j.lhs);
    FewColumns(j.rhs);
    if j.lhs.Col? {
      NotTwo(j.lhs.column, a, b);
    }
    if j.rhs.Col? {
      NotTwo(j.rhs.column, a, b);
    }
  }

  lemma {:induction false} PlainHasTwo(j: Expr, a: Column, b: Column)
    requires PlainEdge(j, a, b)
    ensures j.Cmp? && Columns(j) == {a, b} && |Columns(j)| == 2
  {
    hide IsJoin;
    hide Columns;
  }

  lemma {:induction false} NotTwo(c: Column, a: Column, b: Column)
    requires |{a, b}| == 2
    ensures {a, b} != {c} && {a, b} != {c} + {} && {a, b} != {} + {c}
  {
    assert |{c}| == 1 && {c} + {} == {c} && {} + {c} == {c};
  }

  lemma {:induction false} FewColumns(e: Expr)
    ensures e.Lit? ==> Columns(e) == {}
    ensures e.Col? ==> Columns(e) == {e.column}
  {
    if e.Col? {
      OwnColumn(e.column);
    }
  }

  ghost predicate Sound(j: Expr, a: Column, b: Column) {
    forall w, r :: Holds(w, j, r) == True ==> Holds(w, Eq(a, b), r) == True
  }

  /** An edge says what the expansion takes from it, whatever the operators mean, iff it compares bare columns
      or can never be True. */
  lemma {:induction false} EdgeIsSoundIff(j: Expr, a: Column, b: Column)
    requires PlainEdge(j, a, b)
    ensures Sound(j, a, b) <==> IsBare(j) || ComparesNull(j)
  {
    if IsBare(j) || ComparesNull(j) {
      forall w, r | Holds(w, j, r) == True ensures Holds(w, Eq(a, b), r) == True {
        EdgeIsTrue(w, j, r, a, b);
        EqHolds(w, a, b, r);
      }
    } else {
      var w, r := EdgeIsUnsound(j, a, b);
    }
  }

  /** On a WHERE clause that is one plain edge, the expansion keeps the meaning iff the edge is sound. */
  lemma {:induction false} SingleEdgeIff(j: Expr, a: Column, b: Column, r: Expr)
    requires PlainEdge(j, a, b) && IsExpansion(j, r)
    ensures (forall w, row :: Holds(w, r, row) == True <==> Holds(w, j, row) == True)
       <==> IsBare(j) || ComparesNull(j)
  {
    PlainIsCmp(j, a, b);
    if IsBare(j) || ComparesNull(j) {
      forall w, row ensures Holds(w, r, row) == True <==> Holds(w, j, row) == True {
        SingleEdge(j, a, b);
        ExpansionIsTrue(w, j, r, row);
      }
    } else {
      var w, row := EdgeIsUnsound(j, a, b);
      if Holds(w, r, row) == True {
        SingleImplied(w, j, a, b, r, row);
      }
      hide *;
      assert Holds(w, j, row) == True && Holds(w, r, row) != True;
    }
  }

  lemma {:induction false} PlainParts(j: Expr, a: Column, b: Column)
    requires PlainEdge(j, a, b)
    ensures IsEdge(j) && IsJoin(j) && j.Cmp? && Columns(j) == {a, b}
  {
    hide IsJoin;
    hide Columns;
  }

  lemma {:induction false} SingleJoin(j: Expr)
    requires IsJoin(j) && j.Cmp?
    ensures Joins(j) == {j} && IsPredicate(j)
  {
    hide IsJoin;
    assert Conjuncts(j) == {j};
  }

  lemma {:induction false} BareSingle(j: Expr)
    requires IsEdge(j) && (IsBare(j) || ComparesNull(j))
    ensures SafeEdges({j})
  {
    hide IsEdge;
    hide IsRedundant;
    assert j in {j};
  }

  lemma {:induction false} SingleEdge(j: Expr, a: Column, b: Column)
    requires PlainEdge(j, a, b)
    ensures Joins(j) == {j} && a != b && IsPredicate(j) && Implied(Edges({j}), a, b)
    ensures IsBare(j) || ComparesNull(j) ==> SafeEdges({j})
  {
    hide *;
    PlainParts(j, a, b);
    SingleJoin(j);
    EdgeTables(j, a, b);
    EdgeIsImplied({j}, j, a, b);
    if IsBare(j) || ComparesNull(j) {
      BareSingle(j);
    }
  }

  lemma {:induction false} SingleImplied(w: World, j: Expr, a: Column, b: Column, r: Expr, row: Row)
    requires PlainEdge(j, a, b) && IsExpansion(j, r) && Holds(w, r, row) == True
    ensures Holds(w, Eq(a, b), row) == True
  {
    hide PlainEdge;
    hide Holds;
    SingleEdge(j, a, b);
    TrueByConjuncts(w, r, row);
    hide Conjuncts;
    hide Joins;
    hide Edges;
    hide Implied;
    hide OneOrder;
    var ecs :| ExpandsBy(j, r, ecs);
    ImpliedOnce(Edges(Joins(j)), ecs, a, b);
    OneOrderIsTrue(w, ecs, a, b, row);
  }

  const R := Table("r", "")
  const S := Table("s", "")

  /** `r.a + 1 = s.b` */
  const COMPUTED := Cmp(Equal, App(Math("+"), [Col(Column("a", R)), Lit(Num(1))]), Col(Column("b", S)))

  lemma {:induction false} SumColumns(sum: Expr, a: Column)
    requires sum.App? && sum.args == [Col(a), Lit(Num(1))]
    ensures Columns(sum) == {a} && Tables(sum) == {a.table}
  {
    OwnColumn(a);
    assert Kids(sum) == [Col(a), Lit(Num(1))];
    assert Columns(Lit(Num(1))) == {};
  }

  lemma {:induction false} ComputedIsEdge()
    ensures PlainEdge(COMPUTED, Column("a", R), Column("b", S))
    ensures !IsBare(COMPUTED) && !ComparesNull(COMPUTED)
  {
    var a, b := Column("a", R), Column("b", S);
    hide IsJoin;
    hide Columns;
    hide Tables;
    hide IsEdge;
    SumColumns(COMPUTED.lhs, a);
    OwnColumn(b);
    OperandColumns(COMPUTED);
    JoinedTables(COMPUTED, R, S);
    assert Columns(COMPUTED) == {a, b} && |{a, b}| == 2;
    EdgeFrom(COMPUTED);
  }

  /** The expansion of `r.a + 1 = s.b` loses rows. */
  lemma {:induction false} ComputedJoinLosesRows(r: Expr)
    requires IsExpansion(COMPUTED, r)
    ensures exists w, row :: Holds(w, COMPUTED, row) == True && Holds(w, r, row) != True
  {
    ComputedIsEdge();
    hide *;
    var a, b := Column("a", R), Column("b", S);
    var w, row := EdgeIsUnsound(COMPUTED, a, b);
    if Holds(w, r, row) == True {
      SingleImplied(w, COMPUTED, a, b, r, row);
    }
  }

  // ----- expanding twice -----

  lemma {:induction false} EqColumns(a: Column, b: Column)
    ensures Columns(Eq(a, b)) == {a, b}
    ensures IsJoin(Eq(a, b)) <==> a.table != b.table
  {
    hide IsJoin;
    hide Columns;
    hide Tables;
    OwnColumn(a);
    OwnColumn(b);
    OperandColumns(Eq(a, b));
    JoinedTables(Eq(a, b), a.table, b.table);
  }

  /** The expansion has all edges of the original, and only edges between connected columns. */
  lemma {:induction false} ExpansionEdges(p: Expr, r: Expr, ecs: set<Expr>)
    requires ExpandsBy(p, r, ecs)
    ensures Edges(Joins(p)) <= Edges(Joins(r))
    ensures forall e, a, b :: e in Edges(Joins(r)) && a in e && b in e ==>
      OnEdge(Edges(Joins(p)), a) && Graph.Connected(Edges(Joins(p)), a, b)
  {
    hide *;
    forall e | e in Edges(Joins(p)) ensures e in Edges(Joins(r)) {
      OldEdge(p, r, ecs, e);
    }
    forall e, a, b | e in Edges(Joins(r)) && a in e && b in e
      ensures OnEdge(Edges(Joins(p)), a) && Graph.Connected(Edges(Joins(p)), a, b)
    {
      NewEdge(p, r, ecs, e, a, b);
    }
  }

  lemma {:induction false} EdgeHasJoin(js: set<Expr>, e: set<Column>) returns (j: Expr)
    requires e in Edges(js)
    ensures j in js && IsEdge(j) && Columns(j) == e
  {
    hide IsEdge;
    hide Columns;
    j :| j in js && IsEdge(j) && Columns(j) == e;
  }

  lemma {:induction false} ImpliedIsJoin(p: Expr, r: Expr, ecs: set<Expr>, q: Expr)
    requires ExpandsBy(p, r, ecs) && q in ecs && IsJoin(q)
    ensures q in Joins(r)
  {
    hide IsJoin;
    hide Conjuncts;
    hide AreImplied;
  }

  lemma {:induction false} ComplexIsJoin(p: Expr, r: Expr, ecs: set<Expr>, j: Expr)
    requires ExpandsBy(p, r, ecs) && j in Joins(p) && !CanWrap(j)
    ensures j in Joins(r)
  {
    hide IsJoin;
    hide CanWrap;
    hide AreImplied;
    assert j in Complex(Joins(p));
  }

  lemma {:induction false} JoinOfExpansion(p: Expr, r: Expr, ecs: set<Expr>, j: Expr)
    requires ExpandsBy(p, r, ecs) && j in Joins(r)
    ensures j in Joins(p) || j in ecs
  {
    hide IsJoin;
    hide CanWrap;
    hide AreImplied;
  }

  lemma {:induction false} OldEdge(p: Expr, r: Expr, ecs: set<Expr>, e: set<Column>)
    requires ExpandsBy(p, r, ecs) && e in Edges(Joins(p))
    ensures e in Edges(Joins(r))
  {
    hide *;
    var j := EdgeHasJoin(Joins(p), e);
    if CanWrap(j) {
      WrappedParts(j);
      var a, b := Unwrap(j.lhs).value, Unwrap(j.rhs).value;
      WrappedIsEdge(j);
      WrappedIsImplied(Joins(p), j);
      var q := ExpansionHas(p, r, ecs, a, b);
      EqColumns(a, b);
      EqColumns(b, a);
      assert IsJoin(q) && Columns(q) == {a, b} && |{a, b}| == 2;
      ImpliedIsJoin(p, r, ecs, q);
      EdgeFrom(q);
      InEdges(Joins(r), q);
    } else {
      ComplexIsJoin(p, r, ecs, j);
      InEdges(Joins(r), j);
    }
  }

  lemma {:induction false} ExpansionHas(p: Expr, r: Expr, ecs: set<Expr>, a: Column, b: Column) returns (q: Expr)
    requires ExpandsBy(p, r, ecs) && Implied(Edges(Joins(p)), a, b)
    ensures q in ecs && (q == Eq(a, b) || q == Eq(b, a)) && q.Cmp? && q.op == Equal
  {
    hide Implied;
    hide Conjuncts;
    ImpliedOnce(Edges(Joins(p)), ecs, a, b);
    q := EqOf(ecs, a, b);
  }

  lemma {:induction false} EqOf(ecs: set<Expr>, a: Column, b: Column) returns (q: Expr)
    requires OneOrder(ecs, a, b)
    ensures q in ecs && (q == Eq(a, b) || q == Eq(b, a)) && q.Cmp? && q.op == Equal
  {
    q := if Eq(a, b) in ecs then Eq(a, b) else Eq(b, a);
  }

  lemma {:induction false} InEdges(js: set<Expr>, q: Expr)
    requires q in js && IsEdge(q)
    ensures Columns(q) in Edges(js)
  {}

  lemma {:induction false} NewEdge(p: Expr, r: Expr, ecs: set<Expr>, e: set<Column>, a: Column, b: Column)
    requires ExpandsBy(p, r, ecs) && e in Edges(Joins(r)) && a in e && b in e
    ensures OnEdge(Edges(Joins(p)), a) && Graph.Connected(Edges(Joins(p)), a, b)
  {
    hide *;
    var edges := Edges(Joins(p));
    var j := EdgeHasJoin(Joins(r), e);
    JoinOfExpansion(p, r, ecs, j);
    if j in Joins(p) {
      InEdges(Joins(p), j);
      LiesOn(edges, e, a);
      StepOf(edges, e, a, b);
    } else {
      var x, y := ImpliedColumns(p, r, ecs, j);
      EqColumns(x, y);
      Graph.Reversed(edges, x, y);
      Graph.Self(edges, a);
    }
  }

  lemma {:induction false} ImpliedColumns(p: Expr, r: Expr, ecs: set<Expr>, j: Expr) returns (x: Column, y: Column)
    requires ExpandsBy(p, r, ecs) && j in ecs
    ensures j == Eq(x, y) && OnEdge(Edges(Joins(p)), x) && OnEdge(Edges(Joins(p)), y)
    ensures Graph.Connected(Edges(Joins(p)), x, y)
  {
    hide Conjuncts;
    hide Edges;
    hide OnEdge;
    assert IsImplied(Edges(Joins(p)), j);
    x, y := j.lhs.column, j.rhs.column;
  }

  lemma {:induction false} StepOf(edges: set<set<Column>>, e: set<Column>, a: Column, b: Column)
    requires e in edges && a in e && b in e
    ensures Graph.Connected(edges, a, b)
  {
    Graph.Step(edges, a, b);
  }

  lemma {:induction false} LiesOn(edges: set<set<Column>>, e: set<Column>, a: Column)
    requires e in edges && a in e
    ensures OnEdge(edges, a)
  {}

  /** Expanding an expansion implies the same equalities again. */
  lemma {:induction false} ImpliedAgain(p: Expr, r: Expr, ecs: set<Expr>, a: Column, b: Column)
    requires ExpandsBy(p, r, ecs)
    ensures Implied(Edges(Joins(r)), a, b) <==> Implied(Edges(Joins(p)), a, b)
  {
    hide *;
    ExpansionEdges(p, r, ecs);
    SameImplied(Edges(Joins(p)), Edges(Joins(r)), a, b);
  }

  lemma {:induction false} SameImplied(edges: set<set<Column>>, grown: set<set<Column>>, a: Column, b: Column)
    requires edges <= grown
    requires forall e, x, y :: e in grown && x in e && y in e ==> OnEdge(edges, x) && Graph.Connected(edges, x, y)
    ensures Implied(grown, a, b) <==> Implied(edges, a, b)
  {
    if Implied(grown, a, b) {
      Graph.Within(grown, edges, a, b);
    }
    if Implied(edges, a, b) {
      EdgesGrow(edges, grown, a, b);
    }
  }

  /** A conjunct is there, or is an equality that is there the other way round. */
  ghost predicate ThereInSomeOrder(c: Expr, cs: set<Expr>) {
    c in cs || (c.Cmp? && c.op == Equal && Cmp(Equal, c.rhs, c.lhs) in cs)
  }

  /** Repeating the expansion adds nothing and loses nothing, up to the two sides of implied equalities. */
  lemma {:induction false} ExpandTwice(p: Expr, r: Expr, again: Expr)
    requires IsExpansion(p, r) && IsExpansion(r, again)
    ensures forall c :: c in Conjuncts(again) ==> ThereInSomeOrder(c, Conjuncts(r))
    ensures forall c :: c in Conjuncts(r) ==> ThereInSomeOrder(c, Conjuncts(again))
  {
    hide AreImplied;
    hide Conjuncts;
    hide Joins;
    hide Filters;
    hide Complex;
    var ecs :| ExpandsBy(p, r, ecs);
    var ecs2 :| ExpandsBy(r, again, ecs2);
    forall a, b ensures Implied(Edges(Joins(r)), a, b) <==> Implied(Edges(Joins(p)), a, b) {
      ImpliedAgain(p, r, ecs, a, b);
    }
    forall c | c in Conjuncts(again) ensures ThereInSomeOrder(c, Conjuncts(r)) {
      if c in ecs2 {
        SameInOtherOrder(Edges(Joins(r)), Edges(Joins(p)), ecs2, ecs, c);
      } else {
        KeptInExpansion(r, c);
      }
    }
    forall c | c in Conjuncts(r) ensures ThereInSomeOrder(c, Conjuncts(again)) {
      if c in ecs {
        SameInOtherOrder(Edges(Joins(p)), Edges(Joins(r)), ecs, ecs2, c);
      } else {
        KeptAgain(p, r, c);
      }
    }
  }

  lemma {:induction false} SameInOtherOrder(edges: set<set<Column>>, other: set<set<Column>>, ecs: set<Expr>,
      others: set<Expr>, c: Expr)
    requires AreImplied(edges, ecs) && AreImplied(other, others) && c in ecs
    requires forall a, b :: Implied(edges, a, b) <==> Implied(other, a, b)
    ensures ThereInSomeOrder(c, others)
  {
    hide Implied;
    var a, b := c.lhs.column, c.rhs.column;
    assert IsImplied(edges, c);
    assert Implied(other, a, b);
    assert OneOrder(others, a, b);
    assert c == Eq(a, b);
  }

  lemma {:induction false} KeptInExpansion(r: Expr, c: Expr)
    requires c in Complex(Joins(r)) + Filters(r)
    ensures c in Conjuncts(r)
  {}

  lemma {:induction false} KeptAgain(p: Expr, r: Expr, c: Expr)
    requires c in Complex(Joins(p)) + Filters(p) && c in Conjuncts(r)
    ensures c in Complex(Joins(r)) + Filters(r)
  {
    hide Conjuncts;
    hide IsJoin;
    hide CanWrap;
  }
}
