/** Turning explicit joins into a plain list of tables and a WHERE clause. */
module FromRewrite {
  import opened Sql
  import opened Query
  import opened FromClause
  import opened Flatten

  /** What the visitor hands up: the table sources and the join predicate found so far. */
  datatype Rewritten = Rewritten(sources: seq<TableSource>, joinPredicate: Option<Expr>)

  function Present(parts: seq<Option<Expr>>): seq<Expr> {
    if parts == [] then []
    else (if parts[0].Some? then [parts[0].value] else []) + Present(parts[1..])
  }

  /** `_ImplicitFromClauseRewriter` */
  function RewriteSource(src: TableSource): Result<Rewritten> {
    match src
    case Leaf(_, _) => Success(Rewritten([src], None))
    case JoinSource(l, r, kind, condition) =>
      if kind == CrossJoin then
        var lhs :- RewriteSource(l);
        var rhs :- RewriteSource(r);
        var p :=
          if lhs.joinPredicate.None? then rhs.joinPredicate
          else if rhs.joinPredicate.None? then lhs.joinPredicate
          else Some(CreateAnd([lhs.joinPredicate.value, rhs.joinPredicate.value]).value);
        Success(Rewritten(lhs.sources + rhs.sources, p))
      else if kind == InnerJoin then
        var lhs :- RewriteSource(l);
        var rhs :- RewriteSource(r);
        var all :- CreateAnd(Present([lhs.joinPredicate, rhs.joinPredicate, condition]));
        Success(Rewritten(lhs.sources + rhs.sources, Some(all)))
      else
        Failure
  }

  /** `p` stands for the conditions `ps`: no predicate for no conditions, else one with the same conjuncts. */
  ghost predicate StandsFor(p: Option<Expr>, ps: set<Expr>) {
    && (p.None? <==> ps == {})
    && (p.Some? ==> IsPredicate(p.value) && Conjuncts(p.value) == AllConjuncts(ps))
  }

  ghost function UnionOf(sets: seq<set<Expr>>): set<Expr> {
    if sets == [] then {} else sets[0] + UnionOf(sets[1..])
  }

  lemma {:induction false} NoneAtAll()
    ensures SeqSet([]) == {} && AllConjuncts({}) == {}
  {}

  lemma {:induction false} PresentConjuncts(parts: seq<Option<Expr>>, sets: seq<set<Expr>>)
    requires |parts| == |sets| && forall i :: 0 <= i < |parts| ==> StandsFor(parts[i], sets[i])
    ensures forall p :: p in Present(parts) ==> IsPredicate(p)
    ensures Present(parts) == [] <==> UnionOf(sets) == {}
    ensures AllConjuncts(SeqSet(Present(parts))) == AllConjuncts(UnionOf(sets))
  {
    hide Conjuncts;
    hide IsPredicate;
    hide AllConjuncts;
    NoneAtAll();
    if parts != [] {
      assert StandsFor(parts[0], sets[0]);
      PresentConjuncts(parts[1..], sets[1..]);
      var first := if parts[0].Some? then [parts[0].value] else [];
      AllConjunctsUnite(sets[0], UnionOf(sets[1..]));
      AllConjunctsUnite(SeqSet(first), SeqSet(Present(parts[1..])));
      assert SeqSet(Present(parts)) == SeqSet(first) + SeqSet(Present(parts[1..]));
      if parts[0].Some? {
        assert SeqSet(first) == {parts[0].value};
        AllConjunctsOfOne(parts[0].value);
      }
    }
  }

  /** A conjunction of the present parts stands for all that the parts stand for. */
  lemma {:induction false} PresentStandsFor(parts: seq<Option<Expr>>, sets: seq<set<Expr>>)
    requires |parts| == |sets| && forall i :: 0 <= i < |parts| ==> StandsFor(parts[i], sets[i])
    ensures Present(parts) == [] <==> UnionOf(sets) == {}
    ensures Present(parts) != [] ==> StandsFor(Some(CreateAnd(Present(parts)).value), UnionOf(sets))
  {
    PresentConjuncts(parts, sets);
    hide *;
    if Present(parts) != [] {
      CreateAndParts(Present(parts));
    }
  }

  /** The visitor fails exactly on outer and natural joins; else it keeps the leaves in order and hands up
      exactly the ON conditions. */
  lemma {:induction false} RewriteSourceIs(src: TableSource)
    requires ValidSource(src)
    ensures RewriteSource(src).Success? <==> OnlyInner(src)
    ensures RewriteSource(src).Success? ==>
      var r := RewriteSource(src).value;
      r.sources == Leaves(src) && StandsFor(r.joinPredicate, OnConditions(src))
  {
    if src.JoinSource? {
      RewriteSourceIs(src.lhs);
      RewriteSourceIs(src.rhs);
      if RewriteSource(src.lhs).Success? && RewriteSource(src.rhs).Success? {
        var lp, rp := RewriteSource(src.lhs).value.joinPredicate, RewriteSource(src.rhs).value.joinPredicate;
        JoinStandsFor(src, lp, rp);
        hide StandsFor;
      }
    }
  }

  lemma {:induction false} JoinStandsFor(src: TableSource, lp: Option<Expr>, rp: Option<Expr>)
    requires src.JoinSource? && ValidSource(src)
    requires StandsFor(lp, OnConditions(src.lhs)) && StandsFor(rp, OnConditions(src.rhs))
    ensures src.joinType == CrossJoin ==>
      StandsFor(if lp.None? then rp else if rp.None? then lp else Some(CreateAnd([lp.value, rp.value]).value),
        OnConditions(src))
    ensures src.joinType == InnerJoin ==>
      Present([lp, rp, src.condition]) != [] &&
      StandsFor(Some(CreateAnd(Present([lp, rp, src.condition])).value), OnConditions(src))
  {
    var l, r := OnConditions(src.lhs), OnConditions(src.rhs);
    if src.joinType == CrossJoin {
      assert OnConditions(src) == l + r;
      hide *;
      BothStandFor(lp, rp, l, r);
    } else if src.joinType == InnerJoin {
      assert OnConditions(src) == l + r + {src.condition.value} && IsPredicate(src.condition.value);
      hide *;
      AllStandFor(lp, rp, src.condition.value, l, r);
    }
  }

  lemma {:induction false} UnionOfTwo(l: set<Expr>, r: set<Expr>)
    ensures UnionOf([l, r]) == l + r
  {
    assert [l, r][1..] == [r] && [r][1..] == [];
    assert UnionOf([r]) == r + UnionOf([]);
  }

  lemma {:induction false} PresentOfTwo(a: Option<Expr>, b: Option<Expr>)
    ensures Present([a, b]) == if a.None? then (if b.None? then [] else [b.value])
                               else if b.None? then [a.value] else [a.value, b.value]
  {
    assert [a, b][1..] == [b] && [b][1..] == [];
    assert Present([b]) == if b.None? then [] else [b.value];
  }

  lemma {:induction false} BothStandFor(lp: Option<Expr>, rp: Option<Expr>, l: set<Expr>, r: set<Expr>)
    requires StandsFor(lp, l) && StandsFor(rp, r)
    ensures
      StandsFor(if lp.None? then rp else if rp.None? then lp else Some(CreateAnd([lp.value, rp.value]).value), l + r)
  {
    PresentStandsFor([lp, rp], [l, r]);
    PresentOfTwo(lp, rp);
    UnionOfTwo(l, r);
    assert lp.None? && rp.None? ==> l + r == {};
    hide Conjuncts;
    hide AllConjuncts;
    hide UnionOf;
    hide Present;
  }

  lemma {:induction false} AllStandFor(lp: Option<Expr>, rp: Option<Expr>, c: Expr, l: set<Expr>, r: set<Expr>)
    requires StandsFor(lp, l) && StandsFor(rp, r) && IsPredicate(c)
    ensures Present([lp, rp, Some(c)]) != []
    ensures StandsFor(Some(CreateAnd(Present([lp, rp, Some(c)])).value), l + r + {c})
  {
    AllConjunctsOfOne(c);
    assert StandsFor(Some(c), {c});
    PresentStandsFor([lp, rp, Some(c)], [l, r, {c}]);
    assert [l, r, {c}][1..] == [r, {c}];
    UnionOfTwo(r, {c});
    assert UnionOf([l, r, {c}]) == l + (r + {c}) == l + r + {c};
    hide *;
  }

  // ----- whole queries -----

  predicate ValidQuery(q: SelectQuery) {
    && (forall src :: src in q.from ==> ValidSource(src))
    && (q.where.Some? ==> IsPredicate(q.where.value))
  }

  predicate HasSimpleFrom(q: SelectQuery) {
    forall src :: src in q.from ==> src.Leaf? && src.kind == DirectTable
  }

  /** `r` is `q` with the leaves of its FROM clause side by side and all its conditions in WHERE. */
  ghost predicate IsImplicit(q: SelectQuery, r: SelectQuery) {
    && r.star == q.star && r.targets == q.targets
    && r.from == AllLeaves(q.from)
    && StandsFor(r.where, AllOnConditions(q.from) + OptionSet(q.where))
  }

  /** All conjuncts of a query, whether they stand in ON or in WHERE. */
  function QueryConjuncts(q: SelectQuery): set<Expr> {
    AllConjuncts(AllOnConditions(q.from) + OptionSet(q.where))
  }

  lemma {:induction false} ImplicitConjuncts(q: SelectQuery, implicit: SelectQuery)
    requires IsImplicit(q, implicit) && implicit.where.Some? && ValidQuery(implicit)
    ensures IsPredicate(implicit.where.value) && Conjuncts(implicit.where.value) == QueryConjuncts(q)
  {
    hide Conjuncts;
    hide AllConjuncts;
    hide IsPredicate;
  }

  lemma {:induction false} LeavesUpTo(from: seq<TableSource>, src: TableSource)
    ensures AllLeaves(from + [src]) == AllLeaves(from) + Leaves(src)
    ensures AllOnConditions(from + [src]) == AllOnConditions(from) + OnConditions(src)
  {
    hide Leaves;
    hide OnConditions;
    if from == [] {
      assert (from + [src])[1..] == [];
    } else {
      assert (from + [src])[1..] == from[1..] + [src];
      LeavesUpTo(from[1..], src);
    }
  }

  lemma {:induction false} SimpleIsImplicit(q: SelectQuery)
    requires ValidQuery(q) && (q.from == [] || HasSimpleFrom(q))
    ensures IsImplicit(q, q) && forall src :: src in q.from ==> OnlyInner(src)
  {
    SimpleLeaves(q.from);
    if q.where.Some? {
      AllConjunctsOfOne(q.where.value);
    }
    assert AllOnConditions(q.from) + OptionSet(q.where) == OptionSet(q.where);
  }

  lemma {:induction false} SimpleLeaves(from: seq<TableSource>)
    requires forall src :: src in from ==> src.Leaf?
    ensures AllLeaves(from) == from && AllOnConditions(from) == {}
  {
    if from != [] {
      SimpleLeaves(from[1..]);
    }
  }

  /** The join predicates found in a part of the FROM clause. */
  ghost predicate Collected(from: seq<TableSource>, sources: seq<TableSource>, preds: seq<Expr>) {
    && sources == AllLeaves(from)
    && (forall p :: p in preds ==> IsPredicate(p))
    && (preds == [] <==> AllOnConditions(from) == {})
    && AllConjuncts(SeqSet(preds)) == AllConjuncts(AllOnConditions(from))
  }

  lemma {:induction false} NothingCollected()
    ensures Collected([], [], [])
  {}

  lemma {:induction false} CollectedStep(from: seq<TableSource>, sources: seq<TableSource>, preds: seq<Expr>,
      src: TableSource, p: Option<Expr>)
    requires Collected(from, sources, preds) && StandsFor(p, OnConditions(src))
    ensures Collected(from + [src], sources + Leaves(src), if p.None? then preds else preds + [p.value])
  {
    hide Conjuncts;
    hide IsPredicate;
    hide AllConjuncts;
    hide AllLeaves;
    hide AllOnConditions;
    hide OnConditions;
    LeavesUpTo(from, src);
    AllConjunctsUnite(AllOnConditions(from), OnConditions(src));
    NoneAtAll();
    if p.Some? {
      assert SeqSet(preds + [p.value]) == SeqSet(preds) + {p.value};
      AllConjunctsUnite(SeqSet(preds), {p.value});
      AllConjunctsOfOne(p.value);
    }
  }

  lemma {:induction false} CollectedStandsFor(from: seq<TableSource>, sources: seq<TableSource>, preds: seq<Expr>)
    requires Collected(from, sources, preds)
    ensures StandsFor(if preds == [] then None else Some(CreateAnd(preds).value), AllOnConditions(from))
  {
    if preds != [] {
      CreateAndParts(preds);
    }
    hide Conjuncts;
    hide IsPredicate;
  }

  /** `explicit_to_implicit` */
  method ExplicitToImplicit(q: SelectQuery) returns (r: Result<SelectQuery>)
    requires ValidQuery(q)
    ensures r.Failure? <==> HasOtherJoin(q.from)
    ensures r.Success? ==> IsImplicit(q, r.value) && ValidQuery(r.value)
    ensures (forall src :: src in q.from ==> src.Leaf? && src.kind == DirectTable) ==> r == Success(q)
    ensures (exists src :: src in q.from && !(src.Leaf? && src.kind == DirectTable)) ==>
      r.Success? && r.value.where.Some? ==> forall c :: c in TopConjuncts(r.value.where.value) ==> !c.And?
  {
    OtherJoinExactly(q.from);
    hide HasOtherJoin;
    hide OnlyInner;
    hide Leaves;
    hide OnConditions;
    hide AllOnConditions;
    hide AllLeaves;
    hide RewriteSource;
    hide IsFlattening;
    hide IsPredicate;
    hide Conjuncts;
    if q.from == [] || HasSimpleFrom(q) {
      SimpleIsImplicit(q);
      return Success(q);
    }
    var tableSources: seq<TableSource> := [];
    var joinPreds: seq<Expr> := [];
    assert q.from[..0] == [];
    NothingCollected();
    hide Collected;
    hide StandsFor;
    for i := 0 to |q.from|
      invariant forall src :: src in q.from[..i] ==> OnlyInner(src)
      invariant Collected(q.from[..i], tableSources, joinPreds)
    {
      var src := q.from[i];
      RewriteSourceIs(src);
      var item :- RewriteSource(src);
      CollectedStep(q.from[..i], tableSources, joinPreds, src, item.joinPredicate);
      assert q.from[..i + 1] == q.from[..i] + [src];
      tableSources := tableSources + item.sources;
      if item.joinPredicate.Some? {
        joinPreds := joinPreds + [item.joinPredicate.value];
      }
    }
    assert q.from[..|q.from|] == q.from;
    CollectedStandsFor(q.from, tableSources, joinPreds);
    var completeJoinPred := if joinPreds == [] then None else Some(CreateAnd(joinPreds).value);
    var updatedPred :=
      if completeJoinPred.Some? && q.where.Some? then
        Some(CreateAnd([completeJoinPred.value, q.where.value]).value)
      else if completeJoinPred.Some? then completeJoinPred
      else q.where;
    UpdatedStandsFor(completeJoinPred, q.where, AllOnConditions(q.from));
    var updatedWhere: Option<Expr> := None;
    if updatedPred.Some? {
      var flat := FlattenAndPredicate(updatedPred.value);
      updatedWhere := Some(flat);
      FlatStandsFor(updatedPred.value, flat, AllOnConditions(q.from) + OptionSet(q.where));
    }
    r := Success(SelectQuery(q.star, q.targets, tableSources, updatedWhere));
    AllLeavesAreInner(q.from);
  }

  lemma {:induction false} UpdatedStandsFor(joins: Option<Expr>, where: Option<Expr>, ps: set<Expr>)
    requires StandsFor(joins, ps) && (where.Some? ==> IsPredicate(where.value))
    ensures
      var updated := if joins.Some? && where.Some? then Some(CreateAnd([joins.value, where.value]).value)
        else if joins.Some? then joins else where;
      StandsFor(updated, ps + OptionSet(where)) && (updated.Some? ==> IsPredicate(updated.value))
  {
    if where.Some? {
      AllConjunctsOfOne(where.value);
    }
    BothStandFor(joins, where, ps, OptionSet(where));
    hide Conjuncts;
    hide AllConjuncts;
  }

  lemma {:induction false} FlatStandsFor(p: Expr, flat: Expr, ps: set<Expr>)
    requires IsFlattening(p, flat) && IsPredicate(p) && StandsFor(Some(p), ps)
    ensures StandsFor(Some(flat), ps) && IsPredicate(flat)
    ensures forall c :: c in TopConjuncts(flat) ==> !c.And?
  {
    FlatConjuncts(p, flat);
  }

  lemma {:induction false} StandsForIsTrue(w: World, p: Option<Expr>, ps: set<Expr>, r: Row)
    requires StandsFor(p, ps)
    ensures Satisfies(w, OptionSet(p), r) <==> Satisfies(w, ps, r)
  {
    if p.Some? {
      TrueByConjuncts(w, p.value, r);
      forall x | x in ps ensures Holds(w, x, r) == HoldsAll(w, Conjuncts(x), r) {
        HoldsByConjuncts(w, x, r);
      }
      HoldsAllConjuncts(w, ps, r);
      HoldsAllByCases(w, ps, r);
      HoldsAllByCases(w, AllConjuncts(ps), r);
    }
  }

  /** The implicit form of a query selects the same rows, in the same order and equally often. */
  lemma {:induction false} ImplicitKeepsRows(w: World, db: Relations, q: SelectQuery, r: SelectQuery)
    requires (forall src :: src in q.from ==> OnlyInner(src)) && ScopedFrom(q.from) && IsImplicit(q, r)
    ensures forall src :: src in r.from ==> OnlyInner(src)
    ensures QueryRows(w, db, r) == QueryRows(w, db, q)
  {
    FromRowsAre(w, db, q.from);
    var rows := FromRows(w, db, AllLeaves(q.from));
    var on, where := AllOnConditions(q.from), OptionSet(q.where);
    KeepTwice(w, where, on, rows);
    forall x | x in rows ensures Satisfies(w, OptionSet(r.where), x) <==> Satisfies(w, where + on, x) {
      StandsForIsTrue(w, r.where, on + where, x);
      assert on + where == where + on;
    }
    hide Satisfies;
    KeepSame(w, OptionSet(r.where), where + on, rows);
  }
}
