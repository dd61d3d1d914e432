/** The predicate part of query normalisation: implicit joins, inferred BETWEENs, implied joins, flat WHERE. */
module Normalize {
  import opened Sql
  import opened Query
  import opened FromClause
  import opened FromRewrite
  import opened Flatten
  import opened BetweenInference
  import opened EquivalenceClasses
  import opened JoinPredicates

  function JoinsAmong(cs: set<Expr>): set<Expr> { set c | c in cs && IsJoin(c) }

  predicate SomeComplexJoin(js: set<Expr>) { exists j :: j in js && !j.Cmp? }

  /** Two sets of joins with the same comparisons, and either both or none with other joins. */
  ghost predicate SameJoins(js: set<Expr>, ks: set<Expr>) {
    && (forall j: Expr :: j.Cmp? ==> (j in js <==> j in ks))
    && (SomeComplexJoin(js) <==> SomeComplexJoin(ks))
  }

  lemma {:induction false} SameSafeEdges(js: set<Expr>, ks: set<Expr>)
    requires SameJoins(js, ks)
    ensures SafeEdges(js) <==> SafeEdges(ks)
  {
    forall j | IsEdge(j) ensures j in js <==> j in ks {
      EdgeIsCmp(j);
    }
    assert BareJoins(js) == BareJoins(ks);
    hide IsEdge;
    hide SomeComplexJoin;
    hide CanWrap;
  }

  // ----- inferring BETWEEN keeps the joins -----

  lemma {:induction false} BoundParts(p: Expr)
    requires BoundOf(p).Some?
    ensures p.Cmp? && |Columns(p)| == 1
    ensures Col(BoundOf(p).value.column) in [p.lhs, p.rhs] && BoundOf(p).value.value in [p.lhs, p.rhs]
  {
    hide Columns;
  }

  /** A bound and all its parts mention the table of the bounded column only. */
  lemma {:induction false} BoundTables(p: Expr)
    requires BoundOf(p).Some?
    ensures var t := BoundOf(p).value.column.table;
      && Tables(p) <= {t} && Tables(BoundOf(p).value.value) <= {t}
      && Tables(Col(BoundOf(p).value.column)) == {t}
  {
    hide *;
    BoundParts(p);
    var b := BoundOf(p).value;
    OwnColumn(b.column);
    OperandColumns(p);
    TheOnlyColumn(Columns(p), b.column);
    OneColumnOneTable(b.value, b.column);
    OneColumnOneTable(p, b.column);
  }

  lemma {:induction false} TheOnlyColumn(cs: set<Column>, c: Column)
    requires |cs| == 1 && c in cs
    ensures cs == {c}
  {
    assert |cs - {c}| == 0;
  }

  lemma {:induction false} OneColumnIsNoJoin(p: Expr)
    requires BoundOf(p).Some?
    ensures !IsJoin(p)
  {
    hide *;
    BoundParts(p);
    BoundTables(p);
    OperandTables(p);
    NoJoin(p, BoundOf(p).value.column.table);
  }

  lemma {:induction false} OneColumnOneTable(p: Expr, c: Column)
    requires Columns(p) <= {c}
    ensures Tables(p) <= {c.table}
  {
    hide Columns;
  }

  lemma {:induction false} OperandTables(p: Expr)
    requires p.Cmp?
    ensures Tables(p) == Tables(p.lhs) + Tables(p.rhs)
  {
    OperandColumns(p);
    hide Columns;
  }

  lemma {:induction false} NoBetweenJoin(x: Expr, lo: Expr, up: Expr, t: Table)
    requires Tables(x) <= {t} && Tables(lo) <= {t} && Tables(up) <= {t}
    ensures !IsJoin(Between(x, lo, up))
  {
    hide Tables;
    assert |{t}| == 1;
    AtMostOne(Tables(x), t);
    AtMostOne(Tables(x) + Tables(lo), t);
    AtMostOne(Tables(x) + Tables(up), t);
  }

  lemma {:induction false} AtMostOne(ts: set<Table>, t: Table)
    requires ts <= {t}
    ensures |ts| <= 1
  {
    assert ts == {} || ts == {t};
    assert |{t}| == 1;
  }

  /** A part that merging changes is no join, and comes from no join. */
  lemma {:induction false} ChangedIsNoJoin(cs: seq<Expr>, p: Expr, q: Expr, other: Expr)
    requires ComesFrom(cs, p, q, other) && p != q
    ensures !IsJoin(p) && !IsJoin(q)
  {
    hide IsJoin;
    hide Merges;
    hide BoundOf;
    OneColumnIsNoJoin(q);
    var b := BoundOf(q).value;
    BoundTables(q);
    if q == other {
      OperandTables(p);
      NoJoin(p, b.column.table);
    } else {
      BoundTables(other);
      var x := BoundOf(other).value;
      if IsMerged(cs, p, q, other) {
        NoBetweenJoin(Col(b.column), b.value, x.value, b.column.table);
      } else {
        NoBetweenJoin(Col(b.column), x.value, b.value, b.column.table);
      }
    }
  }

  lemma {:induction false} MergedJoins(cs: seq<Expr>, p: Expr)
    requires IsJoin(p)
    ensures p in MergedConjuncts(cs) <==> p in cs
  {
    hide *;
    if p in MergedConjuncts(cs) {
      var q, other := PartHasConjuncts(cs, p);
      ComesFromConjuncts(cs, p, q, other);
      if p != q {
        ChangedIsNoJoin(cs, p, q, other);
      }
    }
    if p in cs {
      var part, other := ConjunctHasPart(cs, p);
      if part != p {
        ChangedIsNoJoin(cs, part, p, other);
      }
    }
  }

  lemma {:induction false} AndIsJoin(ps: seq<Expr>)
    requires ps != []
    ensures IsJoin(CreateAnd(ps).value) <==> exists p :: p in ps && IsJoin(p)
  {
    hide Tables;
    if |ps| == 1 {
      assert ps == [ps[0]];
    } else {
      SomeJoinAt(ps);
    }
  }

  lemma {:induction false} SomeJoinAt(ps: seq<Expr>)
    ensures (exists i :: 0 <= i < |ps| && IsJoin(ps[i])) <==> exists p :: p in ps && IsJoin(p)
  {
    hide IsJoin;
    if i :| 0 <= i < |ps| && IsJoin(ps[i]) {
      assert ps[i] in ps;
    }
  }

  lemma {:induction false} OrIsJoin(ps: seq<Expr>, qs: seq<Expr>)
    requires |ps| == |qs| && forall i :: 0 <= i < |ps| ==> (IsJoin(ps[i]) <==> IsJoin(qs[i]))
    ensures IsJoin(Or(ps)) <==> IsJoin(Or(qs))
  {
    hide Tables;
    if i :| 0 <= i < |ps| && IsJoin(ps[i]) {
      assert IsJoin(qs[i]);
    }
    if i :| 0 <= i < |qs| && IsJoin(qs[i]) {
      assert IsJoin(ps[i]);
    }
  }

  lemma {:induction false} InferBetweenJoins(p: Expr)
    requires IsPredicate(p)
    ensures IsJoin(InferBetween(p)) <==> IsJoin(p)
  {
    hide Tables;
    hide MergedConjuncts;
    match p {
      case And(cs) =>
        MergedParts(cs);
        AndIsJoin(cs);
        AndIsJoin(MergedConjuncts(cs));
        forall c | IsJoin(c) ensures c in MergedConjuncts(cs) <==> c in cs {
          MergedJoins(cs, c);
        }
        hide IsJoin;
      case Or(cs) =>
        forall i | 0 <= i < |cs| ensures IsJoin(InferBetween(cs[i])) <==> IsJoin(cs[i]) {
          InferBetweenJoins(cs[i]);
        }
        OrIsJoin(InferBetween(p).children, cs);
      case Not(c) =>
        InferBetweenJoins(c);
      case _ =>
    }
  }

  lemma {:induction false} MergedIsFlat(cs: seq<Expr>)
    requires forall c :: c in cs ==> !c.And?
    ensures forall p :: p in MergedConjuncts(cs) ==> !p.And?
  {
    forall p | p in MergedConjuncts(cs) ensures !p.And? {
      var q, other := PartHasConjuncts(cs, p);
    }
  }

  lemma {:induction false} FlatAndConjuncts(ps: seq<Expr>)
    requires ps != [] && forall p :: p in ps ==> !p.And?
    ensures Conjuncts(CreateAnd(ps).value) == SeqSet(ps)
  {
    forall p | p in ps ensures Conjuncts(p) == {p} {}
    if |ps| == 1 {
      assert ps == [ps[0]];
    }
  }

  /** Inferring BETWEEN in a flat predicate keeps its joins. */
  lemma {:induction false} FlatJoinsKept(p: Expr)
    requires IsPredicate(p) && forall c :: c in TopConjuncts(p) ==> !c.And?
    ensures SameJoins(Joins(InferBetween(p)), Joins(p))
  {
    if p.And? {
      var cs := p.children;
      MergedParts(cs);
      MergedIsFlat(cs);
      FlatAndConjuncts(cs);
      FlatAndConjuncts(MergedConjuncts(cs));
      forall c | IsJoin(c) ensures c in MergedConjuncts(cs) <==> c in cs {
        MergedJoins(cs, c);
      }
      assert Conjuncts(p) == SeqSet(cs);
      assert Conjuncts(InferBetween(p)) == SeqSet(MergedConjuncts(cs));
      SameJoinSets(p, InferBetween(p), SeqSet(cs), SeqSet(MergedConjuncts(cs)));
    } else {
      InferBetweenJoins(p);
      SingleConjunctJoins(p, InferBetween(p));
    }
  }

  lemma {:induction false} SameJoinSets(p: Expr, r: Expr, cs: set<Expr>, ds: set<Expr>)
    requires Conjuncts(p) == cs && Conjuncts(r) == ds
    requires forall c :: IsJoin(c) ==> (c in ds <==> c in cs)
    ensures SameJoins(Joins(r), Joins(p))
  {
    hide IsJoin;
    hide Conjuncts;
    assert Joins(r) == Joins(p);
  }

  lemma {:induction false} SingleConjunctJoins(p: Expr, r: Expr)
    requires IsPredicate(p) && !p.And? && r == InferBetween(p) && (IsJoin(r) <==> IsJoin(p))
    ensures SameJoins(Joins(r), Joins(p))
  {
    hide IsJoin;
    assert !r.And? && (r.Cmp? <==> p.Cmp?) && (p.Cmp? ==> r == p);
    assert Conjuncts(p) == {p} && Conjuncts(r) == {r};
  }

  // ----- the chain -----

  /** The WHERE clause `r` that the chain makes of `p`. */
  ghost predicate NormalWhere(p: Expr, r: Expr) {
    exists flat, ec ::
      && IsPredicate(flat) && IsFlattening(p, flat)
      && IsExpansion(InferBetween(flat), ec)
      && IsFlattening(ec, r)
  }

  ghost predicate NormalForm(q: SelectQuery, r: SelectQuery) {
    exists implicit ::
      && IsImplicit(q, implicit) && ValidQuery(implicit)
      && r == implicit.(where := r.where)
      && (r.where.None? <==> implicit.where.None?)
      && (r.where.Some? ==> NormalWhere(implicit.where.value, r.where.value))
  }

  /** The WHERE clause of the implicit form has all conjuncts of the query. */
  lemma {:induction false} ImplicitJoins(q: SelectQuery, implicit: SelectQuery, flat: Expr)
    requires IsImplicit(q, implicit) && implicit.where.Some? && ValidQuery(implicit)
    requires IsFlattening(implicit.where.value, flat)
    ensures IsPredicate(flat) && SameJoins(Joins(InferBetween(flat)), JoinsAmong(QueryConjuncts(q)))
  {
    hide *;
    ImplicitConjuncts(q, implicit);
    FlatConjuncts(implicit.where.value, flat);
    FlattenedIsPredicate(implicit.where.value, flat);
    FlatJoinsKept(flat);
    JoinsOfConjuncts(flat, QueryConjuncts(q));
  }

  lemma {:induction false} JoinsOfConjuncts(p: Expr, cs: set<Expr>)
    requires Conjuncts(p) == cs
    ensures Joins(p) == JoinsAmong(cs)
  {
    hide IsJoin;
    hide Conjuncts;
  }

  lemma {:induction false} FlattenedIsPredicate(p: Expr, flat: Expr)
    requires IsFlattening(p, flat)
    ensures IsPredicate(flat)
  {
    hide IsPredicate;
  }

  lemma {:induction false} NoConditions(q: SelectQuery, implicit: SelectQuery)
    requires IsImplicit(q, implicit) && implicit.where.None?
    ensures JoinsAmong(QueryConjuncts(q)) == {}
  {
    assert AllConjuncts({}) == {};
  }

  /** The steps of `normalize_query` on the predicates of a query without subqueries in FROM. It fails exactly on outer
      and natural joins, and if some conjunct that is no comparison joins tables. */
  method NormalizePredicates(q: SelectQuery) returns (r: Result<SelectQuery>)
    requires ValidQuery(q) && forall x :: x in AllLeaves(q.from) ==> x.Leaf? && x.kind != SubqueryTable
    ensures r.Failure? <==>
      || HasOtherJoin(q.from)
      || exists c :: c in QueryConjuncts(q) && !c.Cmp? && JoinsSomewhere(c)
    ensures r.Success? ==> NormalForm(q, r.value)
    ensures r.Success? && r.value.where.Some? ==> forall c :: c in TopConjuncts(r.value.where.value) ==> !c.And?
  {
    hide IsJoin;
    hide SomeComplexJoin;
    hide JoinsAmong;
    hide QueryConjuncts;
    hide Joins;
    hide IsImplicit;
    hide IsExpansion;
    hide OnlyInner;
    hide IsPredicate;
    hide JoinsSomewhere;
    ComplexExactly(q);
    var implicit :- ExplicitToImplicit(q);
    if implicit.where.None? {
      NoConditions(q, implicit);
      NoComplexJoin();
      return Success(implicit);
    }
    var between := InferBetweenPredicates(implicit.where.value);
    ghost var flat :| IsFlattening(implicit.where.value, flat) && between == InferBetween(flat);
    FlattenedIsPredicate(implicit.where.value, flat);
    InferBetweenIsPredicate(flat);
    ImplicitJoins(q, implicit, flat);
    ComplexJoins(Joins(between), JoinsAmong(QueryConjuncts(q)));
    LeavesAreLeaves(q, implicit, implicit.(where := Some(between)));
    var ec :- ExpandWhere(implicit, between);
    ExpansionIsPredicate(between, ec);
    var where := FlattenAndPredicate(ec);
    FlatConjuncts(ec, where);
    r := Success(implicit.(where := Some(where)));
    assert NormalWhere(implicit.where.value, where);
  }

  /** The implicit form of a query has plain leaves. */
  lemma {:induction false} LeavesAreLeaves(q: SelectQuery, implicit: SelectQuery, merged: SelectQuery)
    requires IsImplicit(q, implicit) && ValidQuery(implicit) && merged.from == implicit.from
    requires merged.where.Some? ==> IsPredicate(merged.where.value)
    ensures ValidQuery(merged) && forall src :: src in merged.from ==> src.Leaf? && OnlyInner(src)
  {
    AllLeavesAreLeaves(q.from);
    hide IsPredicate;
  }

  lemma {:induction false} AllLeavesAreLeaves(from: seq<TableSource>)
    ensures forall src :: src in AllLeaves(from) ==> src.Leaf?
  {
    if from != [] {
      AllLeavesAreLeaves(from[1..]);
      LeavesOfSource(from[0]);
    }
  }

  lemma {:induction false} LeavesOfSource(src: TableSource)
    ensures forall x :: x in Leaves(src) ==> x.Leaf?
  {
    if src.JoinSource? {
      LeavesOfSource(src.lhs);
      LeavesOfSource(src.rhs);
    }
  }

  /** The implicit form of an implicit query has the same FROM clause and the same conjuncts. */
  lemma {:induction false} AgainIsSame(q: SelectQuery, again: SelectQuery)
    requires ValidQuery(q) && IsImplicit(q, again) && q.where.Some? && forall src :: src in q.from ==> src.Leaf?
    ensures again.from == q.from && again.where.Some?
    ensures IsPredicate(again.where.value) && Conjuncts(again.where.value) == Conjuncts(q.where.value)
  {
    SimpleLeaves(q.from);
    AllConjunctsOfOne(q.where.value);
    assert AllOnConditions(q.from) + OptionSet(q.where) == {q.where.value};
    hide Conjuncts;
    hide IsPredicate;
    hide AllConjuncts;
  }

  /** `add_ec_predicates` on an implicit query with the WHERE clause `where`. If the leaves are not all plain tables, it
      makes the query implicit once more. */
  method ExpandWhere(q: SelectQuery, where: Expr) returns (r: Result<Expr>)
    requires IsPredicate(where) && ValidQuery(q.(where := Some(where)))
    requires forall src :: src in q.from ==> src.Leaf? && OnlyInner(src)
    ensures r.Failure? <==> exists j :: j in Joins(where) && !j.Cmp?
    ensures r.Success? ==> IsExpansion(where, r.value)
  {
    hide *;
    ConjunctsArePredicates(where);
    JoinsAreExactly(Conjuncts(where));
    JoinsAre(where);
    var merged := q.(where := Some(where));
    OtherJoinExactly(merged.from);
    var again: Result<SelectQuery> := ExplicitToImplicit(merged);
    if again.Failure? {
      assert false;
    }
    AgainIsSame(merged, again.value);
    SameParts(where, again.value.where.value);
    r := AddEcPredicates(again.value.where.value);
    if r.Success? {
      SameConjunctsExpand(where, again.value.where.value, r.value);
    }
  }

  lemma {:induction false} ComplexExactly(q: SelectQuery)
    requires ValidQuery(q)
    ensures SomeComplexJoin(JoinsAmong(QueryConjuncts(q))) <==>
      exists c :: c in QueryConjuncts(q) && !c.Cmp? && JoinsSomewhere(c)
  {
    QueryConjunctsArePredicates(q);
    hide *;
    JoinsAreExactly(QueryConjuncts(q));
    AmongAre(QueryConjuncts(q));
  }

  lemma {:induction false} AmongAre(cs: set<Expr>)
    ensures SomeComplexJoin(JoinsAmong(cs)) <==> exists c :: c in cs && IsJoin(c) && !c.Cmp?
  {
    hide IsJoin;
  }

  lemma {:induction false} QueryConjunctsArePredicates(q: SelectQuery)
    requires ValidQuery(q)
    ensures forall c :: c in QueryConjuncts(q) ==> IsPredicate(c)
  {
    OnConditionsArePredicates(q.from);
    hide IsPredicate;
    hide Conjuncts;
    hide AllOnConditions;
    forall c | c in QueryConjuncts(q) ensures IsPredicate(c) {
      var p :| p in AllOnConditions(q.from) + OptionSet(q.where) && c in Conjuncts(p);
      ConjunctIsFlat(p, c);
    }
  }

  lemma {:induction false} OnConditionsArePredicates(from: seq<TableSource>)
    requires forall src :: src in from ==> ValidSource(src)
    ensures forall c :: c in AllOnConditions(from) ==> IsPredicate(c)
  {
    hide IsPredicate;
    hide OnConditions;
    hide ValidSource;
    if from != [] {
      OnConditionsArePredicates(from[1..]);
      SourceConditions(from[0]);
    }
  }

  lemma {:induction false} SourceConditions(src: TableSource)
    requires ValidSource(src)
    ensures forall c :: c in OnConditions(src) ==> IsPredicate(c)
  {
    hide IsPredicate;
    if src.JoinSource? {
      SourceConditions(src.lhs);
      SourceConditions(src.rhs);
    }
  }

  lemma {:induction false} NoComplexJoin()
    ensures !SomeComplexJoin({})
  {}

  lemma {:induction false} ComplexJoins(js: set<Expr>, ks: set<Expr>)
    requires SameJoins(js, ks)
    ensures SomeComplexJoin(ks) <==> exists j :: j in js && !j.Cmp?
  {}

  lemma {:induction false} ExpansionIsPredicate(p: Expr, r: Expr)
    requires IsExpansion(p, r)
    ensures IsPredicate(r)
  {
    hide IsPredicate;
    hide ExpandsBy;
  }

  /** The chain keeps the rows on which the WHERE clause is True. */
  lemma {:induction false} NormalWhereIsTrue(w: World, p: Expr, r: Expr, js: set<Expr>, row: Row)
    requires IsPredicate(p) && NormalWhere(p, r) && SafeEdges(js)
    requires forall flat :: IsFlattening(p, flat) && IsPredicate(flat) ==> SameJoins(Joins(InferBetween(flat)), js)
    ensures Holds(w, r, row) == True <==> Holds(w, p, row) == True
  {
    var flat, ec :| IsPredicate(flat) && IsFlattening(p, flat) && IsExpansion(InferBetween(flat), ec)
      && IsFlattening(ec, r);
    assert SameJoins(Joins(InferBetween(flat)), js);
    hide *;
    SameSafeEdges(Joins(InferBetween(flat)), js);
    FlatteningKeeps(w, p, flat, row);
    InferBetweenIsPredicate(flat);
    InferBetweenHolds(w, flat, row);
    ExpansionIsTrue(w, InferBetween(flat), ec, row);
    ExpansionIsPredicate(InferBetween(flat), ec);
    FlatteningKeeps(w, ec, r, row);
  }

  lemma {:induction false} WhereKeepsRows(w: World, db: Relations, q: SelectQuery, p: Expr, r: Expr)
    requires (forall src :: src in q.from ==> OnlyInner(src)) && q.where == Some(p)
    requires forall row :: Holds(w, r, row) == True <==> Holds(w, p, row) == True
    ensures QueryRows(w, db, q.(where := Some(r))) == QueryRows(w, db, q)
  {
    hide Holds;
    KeepSame(w, {r}, {p}, FromRows(w, db, q.from));
  }

  /** Normalising a query keeps its rows, in order and with duplicates, if its edges are safe. */
  lemma {:induction false} NormalFormKeepsRows(w: World, db: Relations, q: SelectQuery, r: SelectQuery)
    requires (forall src :: src in q.from ==> OnlyInner(src)) && ScopedFrom(q.from)
    requires NormalForm(q, r) && SafeEdges(JoinsAmong(QueryConjuncts(q)))
    ensures forall src :: src in r.from ==> OnlyInner(src)
    ensures QueryRows(w, db, r) == QueryRows(w, db, q)
  {
    var implicit :|
      && IsImplicit(q, implicit) && ValidQuery(implicit)
      && r == implicit.(where := r.where)
      && (r.where.None? <==> implicit.where.None?)
      && (r.where.Some? ==> NormalWhere(implicit.where.value, r.where.value));
    ImplicitKeepsRows(w, db, q, implicit);
    if r.where.Some? {
      var p := implicit.where.value;
      assert IsPredicate(p);
      hide *;
      forall flat | IsFlattening(p, flat) && IsPredicate(flat)
        ensures SameJoins(Joins(InferBetween(flat)), JoinsAmong(QueryConjuncts(q)))
      {
        ImplicitJoins(q, implicit, flat);
      }
      forall row ensures Holds(w, r.where.value, row) == True <==> Holds(w, p, row) == True {
        NormalWhereIsTrue(w, p, r.where.value, JoinsAmong(QueryConjuncts(q)), row);
      }
      WhereKeepsRows(w, db, implicit, p, r.where.value);
    }
  }
}
