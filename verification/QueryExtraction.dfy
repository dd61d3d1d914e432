/** Extracting the part of a query that is about some of its tables. */
module QueryExtraction {
  import opened Sql
  import opened Query
  import opened FromClause
  import opened FromRewrite
  import opened QueryFragment
  import opened FragmentTruth

  // ----- extracted queries -----

  function Restrict(r: Row, ts: set<Table>): Row { map t | t in r && t in ts :: r[t] }

  /** A fragment is True on the part of a row that it mentions, wherever the whole predicate is. */
  lemma {:induction false} FragmentIsTrue(w: World, p: Expr, ts: set<Table>, r: Row)
    requires IsPredicate(p) && Keeps(p, ts, true) && Holds(w, p, r) == True && ts <= r.Keys
    ensures Satisfies(w, OptionSet(Fragment(p, ts)), Restrict(r, ts))
  {
    if Fragment(p, ts).Some? {
      var f := Fragment(p, ts).value;
      var v: Expr -> Truth := ValuesOn(w, r);
      HoldsIsTruthOf(w, p, r);
      FragmentFollows(v, p, ts, true);
      HoldsIsTruthOf(w, f, r);
      FragmentTables(p, ts);
      EvalOnTables(w, f, r, Restrict(r, ts));
      SameTruthOf(w, f, r, Restrict(r, ts));
    }
    hide Fragment;
    hide Holds;
  }

  lemma {:induction false} SameTruthOf(w: World, p: Expr, r1: Row, r2: Row)
    requires Eval(w, p, r1) == Eval(w, p, r2)
    ensures Holds(w, p, r1) == Holds(w, p, r2)
  {}

  ghost predicate AreLeaves(from: seq<TableSource>) { forall src :: src in from ==> src.Leaf? }

  ghost predicate DistinctLeaves(from: seq<TableSource>) {
    AreLeaves(from) && forall i, j :: 0 <= i < j < |from| ==> from[i].table != from[j].table
  }

  /** The row holds one row of every table. */
  ghost predicate PicksRows(db: Relations, ts: set<Table>, r: Row) {
    r.Keys == ts && forall t :: t in ts ==> t in db && r[t] in db[t]
  }

  lemma {:induction false} ExtendHas(x: Row, rows: seq<Row>, r: Row)
    ensures r in Extend(x, rows) <==> exists y :: y in rows && r == x + y
  {
    if r in Extend(x, rows) {
      var i :| 0 <= i < |rows| && r == x + rows[i];
      assert rows[i] in rows;
    }
    if y :| y in rows && r == x + y {
      var i :| 0 <= i < |rows| && rows[i] == y;
      assert Extend(x, rows)[i] == r;
    }
  }

  lemma {:induction false} ProductHas(a: seq<Row>, b: seq<Row>, r: Row)
    ensures r in Product(a, b) <==> exists x, y :: x in a && y in b && r == x + y
  {
    if a != [] {
      ProductHas(a[1..], b, r);
      ExtendHas(a[0], b, r);
      assert a == [a[0]] + a[1..];
      hide Extend;
    }
  }

  lemma {:induction false} LeafRowsHave(db: Relations, t: Table, r: Row)
    ensures r in LeafRows(db, t) <==> PicksRows(db, {t}, r)
  {
    if PicksRows(db, {t}, r) {
      assert t in {t};
      var i :| 0 <= i < |db[t]| && db[t][i] == r[t];
      assert r == map[t := db[t][i]] == LeafRows(db, t)[i];
    }
    if r in LeafRows(db, t) {
      var i :| 0 <= i < |LeafRows(db, t)| && LeafRows(db, t)[i] == r;
      assert r[t] == db[t][i];
    }
  }

  lemma {:induction false} FromTablesFirst(from: seq<TableSource>)
    requires from != []
    ensures FromTables(from) == SourceTables(from[0]) + FromTables(from[1..])
  {
    assert from == [from[0]] + from[1..];
    hide SourceTables;
    assert forall src :: src in from <==> src == from[0] || src in from[1..];
  }

  lemma {:induction false} LeafTable(from: seq<TableSource>, i: nat)
    requires i < |from| && from[i].Leaf?
    ensures from[i].table in FromTables(from)
  {
    assert from[i] in from && from[i].table in SourceTables(from[i]);
  }

  /** A FROM clause of different tables yields every choice of one row per table. */
  lemma {:induction false} FromRowsHave(w: World, db: Relations, from: seq<TableSource>, r: Row)
    requires DistinctLeaves(from)
    ensures forall src :: src in from ==> OnlyInner(src)
    ensures r in FromRows(w, db, from) <==> PicksRows(db, FromTables(from), r)
  {
    if from == [] {
      assert FromTables(from) == {};
    } else {
      var t, rest := from[0].table, from[1..];
      FromTablesFirst(from);
      assert t !in FromTables(rest);
      forall y ensures y in FromRows(w, db, rest) <==> PicksRows(db, FromTables(rest), y) {
        FromRowsHave(w, db, rest, y);
      }
      assert DistinctLeaves(rest) && forall src :: src in rest ==> OnlyInner(src);
      ProductHas(LeafRows(db, t), FromRows(w, db, rest), r);
      forall x ensures x in LeafRows(db, t) <==> PicksRows(db, {t}, x) {
        LeafRowsHave(db, t, x);
      }
      assert FromRows(w, db, from) == Product(LeafRows(db, t), FromRows(w, db, rest));
      PicksSplit(db, t, FromTables(rest), r);
    }
  }

  lemma {:induction false} PicksSplit(db: Relations, t: Table, ts: set<Table>, r: Row)
    requires t !in ts
    ensures PicksRows(db, {t} + ts, r) <==>
      exists x, y :: PicksRows(db, {t}, x) && PicksRows(db, ts, y) && r == x + y
  {
    if PicksRows(db, {t} + ts, r) {
      var x, y := Restrict(r, {t}), Restrict(r, ts);
      assert r == x + y;
    }
  }

  lemma {:induction false} KeepHas(w: World, ps: set<Expr>, rows: seq<Row>, r: Row)
    ensures r in Keep(w, ps, rows) <==> r in rows && Satisfies(w, ps, r)
  {
    hide Satisfies;
    if rows != [] {
      KeepHas(w, ps, rows[1..], r);
      assert rows == [rows[0]] + rows[1..];
    }
  }

  /** `sub` is the part of the implicit query `q` that is about the tables `ts`. */
  ghost predicate IsSubquery(q: SelectQuery, ts: set<Table>, sub: SelectQuery)
    requires ValidQuery(q)
  {
    && sub.star && sub.targets == []
    && DistinctLeaves(sub.from) && FromTables(sub.from) == ts
    && sub.where == (if q.where.None? then None else Fragment(q.where.value, ts))
  }

  /** Plain table references, in any order. */
  method FromFor(ts: set<Table>) returns (from: seq<TableSource>)
    ensures DistinctLeaves(from) && FromTables(from) == ts
  {
    from := [];
    var todo := ts;
    assert FromTables([]) == {};
    while todo != {}
      invariant todo <= ts && DistinctLeaves(from) && FromTables(from) == ts - todo
    {
      var t :| t in todo;
      FromTablesAppend(from, Leaf(DirectTable, t));
      todo := todo - {t};
      forall i | 0 <= i < |from| ensures from[i].table in FromTables(from) {
        assert from[i] in from;
        LeafTable(from, i);
      }
      from := from + [Leaf(DirectTable, t)];
    }
  }

  /** `extract_subquery` of a query over plain tables. */
  method ExtractSubquery(q: SelectQuery, ts: set<Table>) returns (r: Result<SelectQuery>)
    requires ValidQuery(q)
    ensures r.Failure? <==>
      || HasOtherJoin(q.from)
      || !(ts <= FromTables(AllLeaves(q.from)))
      || (ts == {} && q.from != [])
    ensures r.Success? ==>
      exists implicit :: IsImplicit(q, implicit) && ValidQuery(implicit) && IsSubquery(implicit, ts, r.value)
  {
    hide Fragment;
    hide OnlyInner;
    hide IsImplicit;
    var implicit :- ExplicitToImplicit(q);
    ImplicitFrom(q, implicit);
    if !(ts <= FromTables(implicit.from)) {
      return Failure;
    }
    LeavesExist(q.from);
    if implicit.from != [] && ts == {} {
      return Failure;
    }
    var from := FromFor(ts);
    var where := if implicit.where.None? then None else Fragment(implicit.where.value, ts);
    r := Success(SelectQuery(true, [], from, where));
    assert IsSubquery(implicit, ts, r.value);
  }

  lemma {:induction false} LeavesExist(from: seq<TableSource>)
    ensures AllLeaves(from) == [] <==> from == []
  {
    if from != [] {
      SomeLeaf(from[0]);
    }
  }

  lemma {:induction false} SomeLeaf(src: TableSource)
    ensures Leaves(src) != []
  {
    if src.JoinSource? {
      SomeLeaf(src.lhs);
    }
  }

  lemma {:induction false} ImplicitFrom(q: SelectQuery, implicit: SelectQuery)
    requires IsImplicit(q, implicit)
    ensures implicit.from == AllLeaves(q.from)
  {}

  /** Every row of a query, restricted to the tables, is a row of the extracted query, if the fragments of all
      conjuncts follow from them. */
  lemma {:induction false} SubqueryHasRows(w: World, db: Relations, q: SelectQuery, implicit: SelectQuery,
      ts: set<Table>, sub: SelectQuery, r: Row)
    requires (forall src :: src in q.from ==> OnlyInner(src)) && ScopedFrom(q.from)
    requires IsImplicit(q, implicit) && ValidQuery(implicit) && IsSubquery(implicit, ts, sub)
    requires ts <= FromTables(q.from)
    requires forall c :: c in QueryConjuncts(q) ==> IsPredicate(c) && Keeps(c, ts, true)
    requires r in QueryRows(w, db, q)
    ensures forall src :: src in sub.from ==> OnlyInner(src)
    ensures Restrict(r, ts) in QueryRows(w, db, sub)
  {
    ImplicitKeepsRows(w, db, q, implicit);
    FromRowsHave(w, db, sub.from, Restrict(r, ts));
    ImplicitRowPicks(w, db, q, implicit, r);
    assert PicksRows(db, ts, Restrict(r, ts));
    if implicit.where.Some? {
      ImplicitConjuncts(q, implicit);
      KeepsByConjuncts(implicit.where.value, ts);
      FragmentIsTrue(w, implicit.where.value, ts, r);
    }
    hide Fragment;
    hide Satisfies;
    KeepHas(w, OptionSet(sub.where), FromRows(w, db, sub.from), Restrict(r, ts));
  }

  lemma {:induction false} ScopedLeaves(from: seq<TableSource>)
    requires ScopedFrom(from)
    ensures DistinctLeaves(AllLeaves(from)) && FromTables(AllLeaves(from)) == FromTables(from)
  {
    if from == [] {
      assert FromTables([]) == {};
    } else {
      var head, rest := from[0], from[1..];
      ScopedLeaves(rest);
      SourceLeaves(head);
      assert from == [head] + rest;
      assert FromTables(from) == SourceTables(head) + FromTables(rest);
      LeavesAppend(Leaves(head), AllLeaves(rest));
    }
  }

  lemma {:induction false} SourceLeaves(src: TableSource)
    requires Scoped(src)
    ensures DistinctLeaves(Leaves(src)) && FromTables(Leaves(src)) == SourceTables(src)
  {
    if src.JoinSource? {
      SourceLeaves(src.lhs);
      SourceLeaves(src.rhs);
      LeavesAppend(Leaves(src.lhs), Leaves(src.rhs));
    }
  }

  lemma {:induction false} LeavesAppend(a: seq<TableSource>, b: seq<TableSource>)
    requires DistinctLeaves(a) && DistinctLeaves(b) && FromTables(a) !! FromTables(b)
    ensures DistinctLeaves(a + b) && FromTables(a + b) == FromTables(a) + FromTables(b)
  {
    forall i | 0 <= i < |a| ensures a[i].table in FromTables(a) {
      assert a[i] in a;
      LeafTable(a, i);
    }
    forall i | 0 <= i < |b| ensures b[i].table in FromTables(b) {
      assert b[i] in b;
      LeafTable(b, i);
    }
    forall src | src in a + b ensures src in a || src in b {}
    forall src | src in a || src in b ensures src in a + b {}
  }

  lemma {:induction false} ImplicitRowPicks(w: World, db: Relations, q: SelectQuery, implicit: SelectQuery, r: Row)
    requires (forall src :: src in implicit.from ==> OnlyInner(src)) && ScopedFrom(q.from)
    requires implicit.from == AllLeaves(q.from) && r in QueryRows(w, db, implicit)
    ensures PicksRows(db, FromTables(q.from), r)
    ensures implicit.where.Some? ==> Holds(w, implicit.where.value, r) == True
  {
    ScopedLeaves(q.from);
    FromRowsHave(w, db, implicit.from, r);
    hide Holds;
    KeepHas(w, OptionSet(implicit.where), FromRows(w, db, implicit.from), r);
  }

  // ----- a disjunction that is extracted in part -----

  const R := Table("r", "")
  const S := Table("s", "")

  const EITHER := Or([Cmp(Equal, Col(Column("a", R)), Lit(Num(1))), Cmp(Equal, Col(Column("b", S)), Lit(Num(1)))])

  /** The fragment of `r.a = 1 OR s.b = 1` for `r` is not True on all rows of the query. */
  lemma {:induction false} DisjunctionLosesRows(w: World)
    ensures IsPredicate(EITHER) && Fragment(EITHER, {R}) == Some(EITHER.children[0]) && !Keeps(EITHER, {R}, true)
    ensures exists r :: Holds(w, EITHER, r) == True && Holds(w, EITHER.children[0], Restrict(r, {R})) != True
  {
    var p, q := EITHER.children[0], EITHER.children[1];
    assert p == Cmp(Equal, Col(Column("a", R)), Lit(Num(1))) && q == Cmp(Equal, Col(Column("b", S)), Lit(Num(1)));
    assert EITHER == Or([p, q]);
    hide *;
    var r: Row := map[R := map["a" := Num(0)], S := map["b" := Num(1)]];
    EitherFragment(p, q);
    ExampleRow(r);
    ComparisonHolds(w, p, Column("a", R), Restrict(r, {R}));
    ComparisonHolds(w, q, Column("b", S), r);
    OrIsTrue(w, [p, q], 1, r);
    assert Holds(w, EITHER, r) == True && Holds(w, p, Restrict(r, {R})) != True;
  }

  lemma {:induction false} ExampleRow(r: Row)
    requires r == map[R := map["a" := Num(0)], S := map["b" := Num(1)]]
    ensures ColumnValue(Restrict(r, {R}), Column("a", R)) == Num(0) && ColumnValue(r, Column("b", S)) == Num(1)
    ensures FromBool(true) == True && FromBool(false) == False
  {
    assert R != S;
  }

  lemma {:induction false} EitherFragment(p: Expr, q: Expr)
    requires EITHER == Or([p, q])
    requires p == Cmp(Equal, Col(Column("a", R)), Lit(Num(1))) && q == Cmp(Equal, Col(Column("b", S)), Lit(Num(1)))
    ensures IsPredicate(EITHER) && Fragment(EITHER, {R}) == Some(p) && !Keeps(EITHER, {R}, true)
  {
    hide *;
    ComparisonTables(p, Column("a", R));
    ComparisonTables(q, Column("b", S));
    EitherShape(p, q);
    BaseFragment(p, {R});
    BaseFragment(q, {R});
    NothingKept();
    FragmentIs(EITHER, {R});
    FragmentsLast([], p, {R});
    FragmentsLast([p], q, {R});
    OneOption(p);
    assert [] + [p] == [p] && [p] + [q] == [p, q] && [p] + [] == [p];
    EitherLoses(p, q);
  }

  lemma {:induction false} EitherLoses(p: Expr, q: Expr)
    requires EITHER == Or([p, q]) && IsPredicate(EITHER) && IsPredicate(q)
    requires Fragment(EITHER, {R}).Some? && Fragment(q, {R}).None?
    ensures !Keeps(EITHER, {R}, true)
  {
    hide Fragment;
    assert EITHER.children[1] == q;
  }

  lemma {:induction false} EitherShape(p: Expr, q: Expr)
    requires EITHER == Or([p, q]) && p.Cmp? && q.Cmp?
    ensures Kids(EITHER) == [p, q] && IsPredicate(EITHER) && IsCompound(EITHER) && !IsCompound(p) && !IsCompound(q)
    ensures IsPredicate(p) && IsPredicate(q) && OptionSeq(None) == []
    ensures Rebuild(EITHER, [p]) == Some(p) && !({S} <= {R}) && {R} <= {R}
  {
    assert S in {S} && S !in {R};
  }

  lemma {:induction false} BaseFragment(p: Expr, ts: set<Table>)
    requires IsPredicate(p) && !IsCompound(p)
    ensures Fragment(p, ts) == if Tables(p) <= ts then Some(p) else None
  {
    hide Tables;
  }

  lemma {:induction false} OrIsTrue(w: World, ps: seq<Expr>, i: nat, r: Row)
    requires i < |ps| && Holds(w, ps[i], r) == True
    ensures Holds(w, Or(ps), r) == True
  {
    var vs := EvalKids(w, Or(ps), r);
    assert ToTruth(vs[i]) in TruthsOf(vs);
  }

  lemma {:induction false} ComparisonTables(p: Expr, c: Column)
    requires p == Cmp(Equal, Col(c), Lit(Num(1)))
    ensures Tables(p) == {c.table}
  {
    OwnColumn(c);
    assert Kids(p) == [Col(c), Lit(Num(1))];
    assert Columns(Lit(Num(1))) == {};
    assert Columns(p) == {c};
  }

  lemma {:induction false} ComparisonHolds(w: World, p: Expr, c: Column, r: Row)
    requires p == Cmp(Equal, Col(c), Lit(Num(1)))
    ensures Holds(w, p, r) == if ColumnValue(r, c).Null? then Unknown else FromBool(ColumnValue(r, c) == Num(1))
  {
    assert EvalKids(w, p, r) == [Eval(w, Col(c), r), Eval(w, Lit(Num(1)), r)];
  }
}
