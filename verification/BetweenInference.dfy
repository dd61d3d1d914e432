/** Joining lower and upper bounds on a column to BETWEEN predicates. */
module BetweenInference {
  import opened Sql
  import opened Flatten

  /** A condition `column <= value` (upper) or `column >= value`. */
  datatype Bound = Bound(upper: bool, column: Column, value: Expr)

  /** The bound that a conjunct puts on a bare column, if the column is the only one it mentions. */
  function BoundOf(p: Expr): Option<Bound> {
    if |Columns(p)| != 1 || !p.Cmp? then None
    else if p.op == LessEqual then
      if p.lhs.Col? then Some(Bound(true, p.lhs.column, p.rhs))
      else if p.rhs.Col? then Some(Bound(false, p.rhs.column, p.lhs))
      else None
    else if p.op == GreaterEqual then
      if p.lhs.Col? then Some(Bound(false, p.lhs.column, p.rhs))
      else if p.rhs.Col? then Some(Bound(true, p.rhs.column, p.lhs))
      else None
    else None
  }

  /** The bound as a predicate with the column on the left. */
  function AsPredicate(b: Bound): Expr {
    Cmp(if b.upper then LessEqual else GreaterEqual, Col(b.column), b.value)
  }

  // ----- the bounds in a conjunction -----

  /** The value of the bound of one direction that a conjunct puts on a column, if it does. */
  function ValuesOf(p: Expr, upper: bool, column: Column): seq<Expr> {
    match BoundOf(p)
    case None => []
    case Some(b) => if b.upper == upper && b.column == column then [b.value] else []
  }

  /** The bounds of one direction that a list of conjuncts puts on a column, from left to right. */
  function Bounds(cs: seq<Expr>, upper: bool, column: Column): seq<Expr> {
    if cs == [] then []
    else Bounds(cs[..|cs| - 1], upper, column) + ValuesOf(cs[|cs| - 1], upper, column)
  }

  /** The columns with a bound of one direction, in the order of their first bounds. */
  function BoundedColumns(cs: seq<Expr>, upper: bool): (columns: seq<Column>)
    ensures forall c :: c in columns <==> Bounds(cs, upper, c) != []
    ensures Distinct(columns)
  {
    if cs == [] then []
    else
      var front, b := BoundedColumns(cs[..|cs| - 1], upper), BoundOf(cs[|cs| - 1]);
      if b.Some? && b.value.upper == upper && b.value.column !in front then front + [b.value.column] else front
  }

  /** The conjuncts that put no bound on a column, or not the first one of its direction. */
  function Remaining(cs: seq<Expr>): seq<Expr> {
    if cs == [] then []
    else
      var front, b := cs[..|cs| - 1], BoundOf(cs[|cs| - 1]);
      Remaining(front) +
      if b.None? || Bounds(front, b.value.upper, b.value.column) != [] then [cs[|cs| - 1]] else []
  }

  /** A column's bounds are merged iff there is exactly one of each direction. */
  predicate Merges(cs: seq<Expr>, column: Column) {
    |Bounds(cs, true, column)| == 1 && |Bounds(cs, false, column)| == 1
  }

  function UpperPart(cs: seq<Expr>, c: Column): Expr
    requires Bounds(cs, true, c) != []
  {
    if Merges(cs, c) then Between(Col(c), Bounds(cs, false, c)[0], Bounds(cs, true, c)[0])
    else AsPredicate(Bound(true, c, Bounds(cs, true, c)[0]))
  }

  function UpperParts(cs: seq<Expr>, columns: seq<Column>): seq<Expr>
    requires forall c :: c in columns ==> Bounds(cs, true, c) != []
  {
    if columns == [] then []
    else UpperParts(cs, columns[..|columns| - 1]) + [UpperPart(cs, columns[|columns| - 1])]
  }

  function LowerParts(cs: seq<Expr>, columns: seq<Column>): seq<Expr>
    requires forall c :: c in columns ==> Bounds(cs, false, c) != []
  {
    if columns == [] then []
    else
      var c := columns[|columns| - 1];
      LowerParts(cs, columns[..|columns| - 1]) +
      if Merges(cs, c) then [] else [AsPredicate(Bound(false, c, Bounds(cs, false, c)[0]))]
  }

  /** The conjuncts after merging. */
  function MergedConjuncts(cs: seq<Expr>): seq<Expr> {
    Remaining(cs) + UpperParts(cs, BoundedColumns(cs, true)) + LowerParts(cs, BoundedColumns(cs, false))
  }

  // ----- the loop -----

  /** The first bounds of one direction, and the columns that have more than one. */
  datatype Filters = Filters(values: map<Column, Expr>, order: seq<Column>, blocked: set<Column>)

  ghost predicate Describes(f: Filters, cs: seq<Expr>, upper: bool) {
    && f.order == BoundedColumns(cs, upper)
    && (forall c :: c in f.values <==> Bounds(cs, upper, c) != [])
    && (forall c :: c in f.values ==> f.values[c] == Bounds(cs, upper, c)[0])
    && forall c :: c in f.blocked <==> |Bounds(cs, upper, c)| >= 2
  }

  /** A new entry goes to the end of the order; a second bound on a column blocks it. */
  function AddBound(f: Filters, c: Column, value: Expr): Filters {
    if c in f.values then f.(blocked := f.blocked + {c})
    else f.(values := f.values[c := value], order := f.order + [c])
  }

  lemma {:induction false} BoundsStep(cs: seq<Expr>, p: Expr)
    ensures forall u, c :: Bounds(cs + [p], u, c) == Bounds(cs, u, c) + ValuesOf(p, u, c)
    ensures forall u ::
      var front, b := BoundedColumns(cs, u), BoundOf(p);
      BoundedColumns(cs + [p], u) ==
        if b.Some? && b.value.upper == u && b.value.column !in front then front + [b.value.column] else front
    ensures Remaining(cs + [p]) ==
      var b := BoundOf(p);
      Remaining(cs) + if b.None? || Bounds(cs, b.value.upper, b.value.column) != [] then [p] else []
  {
    assert (cs + [p])[..|cs|] == cs;
  }

  function AddBoundOf(f: Filters, upper: bool, p: Expr): Filters {
    match BoundOf(p)
    case None => f
    case Some(b) => if b.upper == upper then AddBound(f, b.column, b.value) else f
  }

  lemma {:induction false} DescribesStep(f: Filters, cs: seq<Expr>, upper: bool, p: Expr)
    requires Describes(f, cs, upper)
    ensures Describes(AddBoundOf(f, upper, p), cs + [p], upper)
  {
    BoundsStep(cs, p);
    if BoundOf(p).None? || BoundOf(p).value.upper != upper {
      assert forall c :: ValuesOf(p, upper, c) == [];
      hide *;
      SameDescription(f, cs, cs + [p], upper);
    } else {
      var b := BoundOf(p).value;
      assert forall c :: ValuesOf(p, upper, c) == if c == b.column then [b.value] else [];
      assert AddBoundOf(f, upper, p) == AddBound(f, b.column, b.value);
      hide *;
      NewDescription(f, cs, cs + [p], upper, b.column, b.value);
    }
  }

  lemma {:induction false} SameDescription(f: Filters, cs: seq<Expr>, ds: seq<Expr>, upper: bool)
    requires Describes(f, cs, upper) && BoundedColumns(ds, upper) == BoundedColumns(cs, upper)
    requires forall c :: Bounds(ds, upper, c) == Bounds(cs, upper, c) + []
    ensures Describes(f, ds, upper)
  {
    hide Bounds;
    hide BoundedColumns;
    forall c ensures Bounds(ds, upper, c) == Bounds(cs, upper, c) {}
  }

  lemma {:induction false} NewDescription(f: Filters, cs: seq<Expr>, ds: seq<Expr>, upper: bool, x: Column, v: Expr)
    requires Describes(f, cs, upper)
    requires BoundedColumns(ds, upper) ==
      if x in BoundedColumns(cs, upper) then BoundedColumns(cs, upper) else BoundedColumns(cs, upper) + [x]
    requires forall c :: Bounds(ds, upper, c) == Bounds(cs, upper, c) + if c == x then [v] else []
    ensures Describes(AddBound(f, x, v), ds, upper)
  {
    hide Bounds;
    hide BoundedColumns;
    assert Bounds(ds, upper, x) == Bounds(cs, upper, x) + [v];
    forall c | c != x ensures Bounds(ds, upper, c) == Bounds(cs, upper, c) {}
  }

  lemma {:induction false} NothingYet()
    ensures Remaining([]) == []
    ensures forall u :: Describes(Filters(map[], [], {}), [], u)
  {}

  /** The first loop of `visit_and_predicate`: bounds are collected, everything else is kept. */
  method CollectBounds(cs: seq<Expr>) returns (less: Filters, greater: Filters, rewritten: seq<Expr>)
    ensures rewritten == Remaining(cs) && Describes(less, cs, true) && Describes(greater, cs, false)
  {
    hide BoundOf;
    hide Bounds;
    hide BoundedColumns;
    hide Remaining;
    rewritten := [];
    less, greater := Filters(map[], [], {}), Filters(map[], [], {});
    assert cs[..0] == [];
    NothingYet();
    for i := 0 to |cs|
      invariant rewritten == Remaining(cs[..i])
      invariant Describes(less, cs[..i], true) && Describes(greater, cs[..i], false)
    {
      var child := cs[i];
      BoundsStep(cs[..i], child);
      DescribesStep(less, cs[..i], true, child);
      DescribesStep(greater, cs[..i], false, child);
      assert cs[..i + 1] == cs[..i] + [child];
      match BoundOf(child) {
        case None =>
          rewritten := rewritten + [child];
        case Some(b) =>
          if b.column in (if b.upper then less else greater).values {
            rewritten := rewritten + [child];
          }
          if b.upper {
            less := AddBound(less, b.column, b.value);
          } else {
            greater := AddBound(greater, b.column, b.value);
          }
      }
    }
    assert cs[..|cs|] == cs;
  }

  lemma {:induction false} MergesByFilters(less: Filters, greater: Filters, cs: seq<Expr>, c: Column)
    requires Describes(less, cs, true) && Describes(greater, cs, false)
    ensures Merges(cs, c) <==>
      c in less.values && c in greater.values && c !in less.blocked + greater.blocked
  {
    hide Bounds;
    hide BoundedColumns;
  }

  lemma {:induction false} PartsStep(cs: seq<Expr>, upper: bool, columns: seq<Column>, c: Column)
    requires forall x :: x in columns + [c] ==> Bounds(cs, upper, x) != []
    ensures upper ==> UpperParts(cs, columns + [c]) == UpperParts(cs, columns) + [UpperPart(cs, c)]
    ensures !upper ==>
      var part := if Merges(cs, c) then [] else [AsPredicate(Bound(false, c, Bounds(cs, false, c)[0]))];
      LowerParts(cs, columns + [c]) == LowerParts(cs, columns) + part
  {
    assert (columns + [c])[..|columns|] == columns;
  }

  /** The other loops of `visit_and_predicate`: every column's first bounds are emitted, merged or alone. */
  method EmitBounds(cs: seq<Expr>, less: Filters, greater: Filters) returns (emitted: seq<Expr>)
    requires Describes(less, cs, true) && Describes(greater, cs, false)
    ensures emitted == UpperParts(cs, BoundedColumns(cs, true)) + LowerParts(cs, BoundedColumns(cs, false))
  {
    hide Bounds;
    hide BoundedColumns;
    hide UpperParts;
    hide LowerParts;
    hide Merges;
    NoParts(cs);
    emitted := [];
    var blocked := less.blocked + greater.blocked;
    var open := greater.values;
    for i := 0 to |less.order|
      invariant emitted == UpperParts(cs, less.order[..i])
      invariant forall c :: c in open <==> c in greater.values && !(Merges(cs, c) && c in less.order[..i])
      invariant forall c :: c in open ==> open[c] == greater.values[c]
    {
      var candidate := less.order[i];
      var lessValue := less.values[candidate];
      assert less.order[..i + 1] == less.order[..i] + [candidate];
      PartsStep(cs, true, less.order[..i], candidate);
      MergesByFilters(less, greater, cs, candidate);
      if candidate in blocked || candidate !in open {
        emitted := emitted + [AsPredicate(Bound(true, candidate, lessValue))];
      } else {
        var greaterValue := open[candidate];
        open := open - {candidate};
        emitted := emitted + [Between(Col(candidate), greaterValue, lessValue)];
      }
    }
    assert less.order[..|less.order|] == less.order;
    ghost var uppers := emitted;
    for i := 0 to |greater.order|
      invariant emitted == uppers + LowerParts(cs, greater.order[..i])
    {
      var dangling := greater.order[i];
      assert greater.order[..i + 1] == greater.order[..i] + [dangling];
      PartsStep(cs, false, greater.order[..i], dangling);
      MergesByFilters(less, greater, cs, dangling);
      if dangling in open {
        emitted := emitted + [AsPredicate(Bound(false, dangling, open[dangling]))];
      }
    }
    assert greater.order[..|greater.order|] == greater.order;
  }

  lemma {:induction false} NoParts(cs: seq<Expr>)
    ensures UpperParts(cs, []) == [] == LowerParts(cs, [])
  {}

  // ----- what merging keeps -----

  lemma {:induction false} RemainingIsChild(cs: seq<Expr>, p: Expr)
    requires p in Remaining(cs)
    ensures p in cs
  {
    hide Bounds;
    hide BoundOf;
    if p in Remaining(cs[..|cs| - 1]) {
      RemainingIsChild(cs[..|cs| - 1], p);
    }
  }

  /** A conjunct that does not remain holds the first bound of its kind. */
  lemma {:induction false} ChildRemains(cs: seq<Expr>, p: Expr)
    requires p in cs && p !in Remaining(cs)
    ensures BoundOf(p).Some?
    ensures var b := BoundOf(p).value;
      Bounds(cs, b.upper, b.column) != [] && Bounds(cs, b.upper, b.column)[0] == b.value
  {
    hide BoundOf;
    var front := cs[..|cs| - 1];
    if p in front && p !in Remaining(front) {
      ChildRemains(front, p);
    } else {
      assert p == cs[|cs| - 1];
    }
  }

  /** A bound that is a conjunct's own. */
  lemma {:induction false} BoundHasChild(cs: seq<Expr>, u: bool, c: Column) returns (p: Expr)
    requires Bounds(cs, u, c) != []
    ensures p in cs && BoundOf(p) == Some(Bound(u, c, Bounds(cs, u, c)[0]))
  {
    var front := Bounds(cs[..|cs| - 1], u, c);
    if front != [] {
      p := BoundHasChild(cs[..|cs| - 1], u, c);
    } else {
      p := cs[|cs| - 1];
    }
  }

  lemma {:induction false} UpperPartsAre(cs: seq<Expr>, columns: seq<Column>, p: Expr)
    requires forall c :: c in columns ==> Bounds(cs, true, c) != []
    ensures p in UpperParts(cs, columns) <==> exists c :: c in columns && p == UpperPart(cs, c)
  {
    hide Bounds;
    hide Merges;
    if columns != [] {
      var front, last := columns[..|columns| - 1], columns[|columns| - 1];
      UpperPartsAre(cs, front, p);
      assert columns == front + [last];
    }
  }

  lemma {:induction false} LowerPartsAre(cs: seq<Expr>, columns: seq<Column>, p: Expr)
    requires forall c :: c in columns ==> Bounds(cs, false, c) != []
    ensures p in LowerParts(cs, columns) <==> exists c ::
      c in columns && !Merges(cs, c) && p == AsPredicate(Bound(false, c, Bounds(cs, false, c)[0]))
  {
    hide Bounds;
    hide Merges;
    if columns != [] {
      var front, last := columns[..|columns| - 1], columns[|columns| - 1];
      LowerPartsAre(cs, front, p);
      assert columns == front + [last];
    }
  }

  /** `p` comes from a conjunct that keeps its place, from one that is mirrored, or from two that are merged. */
  ghost predicate ComesFrom(cs: seq<Expr>, p: Expr, q: Expr, other: Expr) {
    && q in cs && other in cs
    && (|| (p == q == other)
        || (q == other && BoundOf(q).Some? && p == AsPredicate(BoundOf(q).value) &&
            !Merges(cs, BoundOf(q).value.column))
        || IsMerged(cs, p, q, other) || IsMerged(cs, p, other, q))
  }

  ghost predicate IsMerged(cs: seq<Expr>, p: Expr, lower: Expr, upper: Expr) {
    && BoundOf(lower).Some? && BoundOf(upper).Some?
    && var lo, up := BoundOf(lower).value, BoundOf(upper).value;
       !lo.upper && up.upper && lo.column == up.column && Merges(cs, lo.column)
       && p == Between(Col(lo.column), lo.value, up.value)
  }

  lemma {:induction false} UpperPartHasConjuncts(cs: seq<Expr>, c: Column) returns (q: Expr, other: Expr)
    requires Bounds(cs, true, c) != []
    ensures ComesFrom(cs, UpperPart(cs, c), q, other)
  {
    hide BoundOf;
    hide Bounds;
    q := BoundHasChild(cs, true, c);
    other := q;
    if Merges(cs, c) {
      other := BoundHasChild(cs, false, c);
      hide Merges;
      assert IsMerged(cs, UpperPart(cs, c), other, q);
    }
  }

  /** Nothing is made up: every part of the result comes from conjuncts. */
  lemma {:induction false} PartHasConjuncts(cs: seq<Expr>, p: Expr) returns (q: Expr, other: Expr)
    requires p in MergedConjuncts(cs)
    ensures ComesFrom(cs, p, q, other)
  {
    hide BoundOf;
    hide Bounds;
    hide Merges;
    hide Remaining;
    hide UpperParts;
    hide LowerParts;
    if p in Remaining(cs) {
      RemainingIsChild(cs, p);
      q, other := p, p;
    } else if p in UpperParts(cs, BoundedColumns(cs, true)) {
      UpperPartsAre(cs, BoundedColumns(cs, true), p);
      var c :| c in BoundedColumns(cs, true) && p == UpperPart(cs, c);
      q, other := UpperPartHasConjuncts(cs, c);
    } else {
      LowerPartsAre(cs, BoundedColumns(cs, false), p);
      var c :| c in BoundedColumns(cs, false) && !Merges(cs, c)
        && p == AsPredicate(Bound(false, c, Bounds(cs, false, c)[0]));
      q := BoundHasChild(cs, false, c);
      other := q;
    }
  }

  /** Nothing is lost: every conjunct has a part of the result. */
  lemma {:induction false} ConjunctHasPart(cs: seq<Expr>, q: Expr) returns (p: Expr, other: Expr)
    requires q in cs
    ensures p in MergedConjuncts(cs) && ComesFrom(cs, p, q, other)
  {
    hide BoundOf;
    hide Bounds;
    if q in Remaining(cs) {
      p, other := q, q;
    } else {
      ChildRemains(cs, q);
      var b := BoundOf(q).value;
      assert b.column in BoundedColumns(cs, b.upper);
      other := q;
      if Merges(cs, b.column) {
        other := BoundHasChild(cs, !b.upper, b.column);
        p := UpperPart(cs, b.column);
        UpperPartsAre(cs, BoundedColumns(cs, true), p);
      } else {
        p := AsPredicate(b);
        if b.upper {
          UpperPartsAre(cs, BoundedColumns(cs, true), p);
        } else {
          LowerPartsAre(cs, BoundedColumns(cs, false), p);
        }
      }
    }
  }

  lemma {:induction false} SomeMerged(cs: seq<Expr>)
    requires cs != []
    ensures MergedConjuncts(cs) != []
  {
    hide *;
    var p, other := ConjunctHasPart(cs, cs[0]);
  }

  lemma {:induction false} MergedParts(cs: seq<Expr>)
    ensures Remaining(cs) + (UpperParts(cs, BoundedColumns(cs, true)) + LowerParts(cs, BoundedColumns(cs, false)))
         == MergedConjuncts(cs)
    ensures cs != [] ==> MergedConjuncts(cs) != []
  {
    hide Remaining;
    hide UpperParts;
    hide LowerParts;
    hide BoundedColumns;
    hide Merges;
    hide Bounds;
    if cs != [] {
      SomeMerged(cs);
    }
  }

  /** `visit_and_predicate` */
  method VisitAndPredicate(cs: seq<Expr>) returns (r: Expr)
    requires cs != []
    ensures MergedConjuncts(cs) != [] && r == CreateAnd(MergedConjuncts(cs)).value
  {
    hide *;
    var less, greater, rewritten := CollectBounds(cs);
    var emitted := EmitBounds(cs, less, greater);
    MergedParts(cs);
    r := CreateAnd(rewritten + emitted).value;
  }

  // ----- truth -----

  lemma {:induction false} CmpHolds(w: World, op: CmpOp, a: Expr, b: Expr, r: Row)
    ensures Holds(w, Cmp(op, a, b), r) == Compare(w, op, Eval(w, a, r), Eval(w, b, r))
  {
    hide Compare;
    var e := Cmp(op, a, b);
    assert EvalKids(w, e, r) == [Eval(w, a, r), Eval(w, b, r)];
  }

  lemma {:induction false} BetweenHolds(w: World, x: Expr, lo: Expr, up: Expr, r: Row)
    ensures Holds(w, Between(x, lo, up), r)
         == AllOf({Holds(w, Cmp(GreaterEqual, x, lo), r), Holds(w, Cmp(LessEqual, x, up), r)})
  {
    CmpHolds(w, GreaterEqual, x, lo, r);
    CmpHolds(w, LessEqual, x, up, r);
    hide Compare;
    var e := Between(x, lo, up);
    assert EvalKids(w, e, r) == [Eval(w, x, r), Eval(w, lo, r), Eval(w, up, r)];
  }

  lemma {:induction false} MirroredHolds(w: World, p: Expr, r: Row)
    requires BoundOf(p).Some?
    ensures Holds(w, AsPredicate(BoundOf(p).value), r) == Holds(w, p, r)
  {
    hide Columns;
    hide Eval;
    var q := AsPredicate(BoundOf(p).value);
    CmpHolds(w, p.op, p.lhs, p.rhs, r);
    CmpHolds(w, q.op, q.lhs, q.rhs, r);
    hide Holds;
  }

  lemma {:induction false} PartHolds(w: World, cs: seq<Expr>, p: Expr, q: Expr, other: Expr, r: Row)
    requires ComesFrom(cs, p, q, other)
    ensures Holds(w, p, r) == AllOf({Holds(w, q, r), Holds(w, other, r)})
  {
    hide BoundOf;
    hide Merges;
    hide Holds;
    if p != q || q != other {
      MirroredHolds(w, q, r);
      MirroredHolds(w, other, r);
      var a, b := BoundOf(q).value, BoundOf(other).value;
      if IsMerged(cs, p, q, other) {
        BetweenHolds(w, Col(a.column), a.value, b.value, r);
      } else if IsMerged(cs, p, other, q) {
        BetweenHolds(w, Col(a.column), b.value, a.value, r);
      }
    }
  }

  /** `p` is True iff `q` and `other` are, and False iff one of them is. */
  ghost predicate MeansBoth(w: World, p: Expr, q: Expr, other: Expr, r: Row) {
    Holds(w, p, r) == AllOf({Holds(w, q, r), Holds(w, other, r)})
  }

  ghost predicate AllJoin(w: World, ps: set<Expr>, qs: set<Expr>, r: Row) {
    forall p :: p in ps ==> exists q, other :: q in qs && other in qs && MeansBoth(w, p, q, other, r)
  }

  ghost predicate AllJoined(w: World, ps: set<Expr>, qs: set<Expr>, r: Row) {
    forall q :: q in qs ==> exists p, other :: p in ps && other in qs && MeansBoth(w, p, q, other, r)
  }

  lemma {:induction false} JoinTruth(w: World, ps: set<Expr>, qs: set<Expr>, r: Row)
    requires AllJoin(w, ps, qs, r)
    ensures Satisfies(w, qs, r) ==> Satisfies(w, ps, r)
    ensures (exists p :: p in ps && Holds(w, p, r) == False) ==> exists q :: q in qs && Holds(w, q, r) == False
  {
    hide Holds;
    forall p | p in ps
      ensures Satisfies(w, qs, r) ==> Holds(w, p, r) == True
      ensures Holds(w, p, r) == False ==> exists q :: q in qs && Holds(w, q, r) == False
    {
      var q, other :| q in qs && other in qs && MeansBoth(w, p, q, other, r);
    }
  }

  lemma {:induction false} JoinedTruth(w: World, ps: set<Expr>, qs: set<Expr>, r: Row)
    requires AllJoined(w, ps, qs, r)
    ensures Satisfies(w, ps, r) ==> Satisfies(w, qs, r)
    ensures (exists q :: q in qs && Holds(w, q, r) == False) ==> exists p :: p in ps && Holds(w, p, r) == False
  {
    hide Holds;
    forall q | q in qs
      ensures Satisfies(w, ps, r) ==> Holds(w, q, r) == True
      ensures Holds(w, q, r) == False ==> exists p :: p in ps && Holds(w, p, r) == False
    {
      var p, other :| p in ps && other in qs && MeansBoth(w, p, q, other, r);
    }
  }

  lemma {:induction false} SameTruth(w: World, ps: set<Expr>, qs: set<Expr>, r: Row)
    requires AllJoin(w, ps, qs, r) && AllJoined(w, ps, qs, r)
    ensures HoldsAll(w, ps, r) == HoldsAll(w, qs, r)
  {
    hide *;
    JoinTruth(w, ps, qs, r);
    JoinedTruth(w, ps, qs, r);
    HoldsAllByCases(w, ps, r);
    HoldsAllByCases(w, qs, r);
  }

  /** Merging keeps the truth value of the conjunction. */
  lemma {:induction false} MergedHolds(w: World, cs: seq<Expr>, r: Row)
    ensures HoldsAll(w, SeqSet(MergedConjuncts(cs)), r) == HoldsAll(w, SeqSet(cs), r)
  {
    var ps, qs := SeqSet(MergedConjuncts(cs)), SeqSet(cs);
    forall p | p in ps
      ensures exists q, other :: q in qs && other in qs && MeansBoth(w, p, q, other, r)
    {
      hide MergedConjuncts;
      var q, other := PartHasConjuncts(cs, p);
      ComesFromConjuncts(cs, p, q, other);
      PartHolds(w, cs, p, q, other, r);
      hide *;
      assert MeansBoth(w, p, q, other, r);
    }
    forall q | q in qs
      ensures exists p, other :: p in ps && other in qs && MeansBoth(w, p, q, other, r)
    {
      var p, other := ConjunctHasPart(cs, q);
      ComesFromConjuncts(cs, p, q, other);
      PartHolds(w, cs, p, q, other, r);
      assert MeansBoth(w, p, q, other, r);
    }
    hide MeansBoth;
    hide ComesFrom;
    hide MergedConjuncts;
    SameTruth(w, ps, qs, r);
  }

  lemma {:induction false} ComesFromConjuncts(cs: seq<Expr>, p: Expr, q: Expr, other: Expr)
    requires ComesFrom(cs, p, q, other)
    ensures q in cs && other in cs
  {}

  // ----- how many parts there are -----

  function MergedColumns(cs: seq<Expr>): set<Column> { MergedAmong(cs, BoundedColumns(cs, false)) }

  lemma {:induction false} RemainingCount(cs: seq<Expr>)
    ensures |Remaining(cs)| + |BoundedColumns(cs, true)| + |BoundedColumns(cs, false)| == |cs|
  {
    hide BoundOf;
    if cs != [] {
      var front, b := cs[..|cs| - 1], BoundOf(cs[|cs| - 1]);
      RemainingCount(front);
      if b.Some? {
        assert b.value.column in BoundedColumns(front, b.value.upper) <==>
               Bounds(front, b.value.upper, b.value.column) != [];
      }
      hide Bounds;
    }
  }

  lemma {:induction false} LowerCount(cs: seq<Expr>, columns: seq<Column>)
    requires forall c :: c in columns ==> Bounds(cs, false, c) != []
    requires Distinct(columns)
    ensures |LowerParts(cs, columns)| + |MergedAmong(cs, columns)| == |columns|
  {
    hide Bounds;
    hide Merges;
    if columns != [] {
      hide MergedAmong;
      var front, last := columns[..|columns| - 1], columns[|columns| - 1];
      assert columns == front + [last] && last !in front;
      LowerCount(cs, front);
      MergedAmongStep(cs, front, last);
    }
  }

  function MergedAmong(cs: seq<Expr>, columns: seq<Column>): set<Column> {
    set c | c in columns && Merges(cs, c)
  }

  lemma {:induction false} MergedAmongStep(cs: seq<Expr>, columns: seq<Column>, c: Column)
    requires c !in columns
    ensures |MergedAmong(cs, columns + [c])| == |MergedAmong(cs, columns)| + if Merges(cs, c) then 1 else 0
  {
    hide Merges;
    if Merges(cs, c) {
      assert MergedAmong(cs, columns + [c]) == MergedAmong(cs, columns) + {c};
    } else {
      assert MergedAmong(cs, columns + [c]) == MergedAmong(cs, columns);
    }
  }

  lemma {:induction false} UpperCount(cs: seq<Expr>, columns: seq<Column>)
    requires forall c :: c in columns ==> Bounds(cs, true, c) != []
    ensures |UpperParts(cs, columns)| == |columns|
  {
    hide Bounds;
    hide Merges;
    if columns != [] {
      UpperCount(cs, columns[..|columns| - 1]);
    }
  }

  /** Merging saves one part per merged column. */
  lemma {:induction false} MergedCount(cs: seq<Expr>)
    ensures |MergedConjuncts(cs)| + |MergedColumns(cs)| == |cs|
  {
    RemainingCount(cs);
    UpperCount(cs, BoundedColumns(cs, true));
    LowerCount(cs, BoundedColumns(cs, false));
    hide Merges;
    hide Bounds;
    hide BoundedColumns;
  }

  /** The BETWEEN predicates on a column. */
  function Betweens(ps: seq<Expr>, c: Column): nat {
    if ps == [] then 0
    else
      var last := ps[|ps| - 1];
      Betweens(ps[..|ps| - 1], c) + (if last.Between? && last.operand == Col(c) then 1 else 0)
  }

  lemma {:induction false} BetweenCountAppend(ps: seq<Expr>, qs: seq<Expr>, c: Column)
    ensures Betweens(ps + qs, c) == Betweens(ps, c) + Betweens(qs, c)
  {
    if qs == [] {
      assert ps + qs == ps;
    } else {
      assert (ps + qs)[..|ps + qs| - 1] == ps + qs[..|qs| - 1];
      BetweenCountAppend(ps, qs[..|qs| - 1], c);
    }
  }

  lemma {:induction false} BetweensRemaining(cs: seq<Expr>, c: Column)
    ensures Betweens(Remaining(cs), c) == Betweens(cs, c)
  {
    if cs != [] {
      var front, last := cs[..|cs| - 1], cs[|cs| - 1];
      BetweensRemaining(front, c);
      assert last.Between? ==> BoundOf(last).None?;
      assert BoundOf(last).Some? ==> !last.Between?;
      hide BoundOf;
      hide Bounds;
      assert Betweens(Remaining(front) + [], c) == Betweens(Remaining(front), c) by {
        assert Remaining(front) + [] == Remaining(front);
      }
      BetweenCountAppend(Remaining(front), [last], c);
      assert [last][..0] == [];
      assert Betweens([], c) == 0;
    }
  }

  lemma {:induction false} BetweensUpper(cs: seq<Expr>, columns: seq<Column>, c: Column)
    requires forall x :: x in columns ==> Bounds(cs, true, x) != []
    requires Distinct(columns)
    ensures Betweens(UpperParts(cs, columns), c) == if c in columns && Merges(cs, c) then 1 else 0
  {
    hide Bounds;
    hide Merges;
    if columns != [] {
      var front, last := columns[..|columns| - 1], columns[|columns| - 1];
      BetweensUpper(cs, front, c);
      assert columns == front + [last] && last !in front;
    }
  }

  lemma {:induction false} BetweensLower(cs: seq<Expr>, columns: seq<Column>, c: Column)
    requires forall x :: x in columns ==> Bounds(cs, false, x) != []
    ensures Betweens(LowerParts(cs, columns), c) == 0
  {
    hide Bounds;
    hide Merges;
    if columns != [] {
      var front, last := columns[..|columns| - 1], columns[|columns| - 1];
      BetweensLower(cs, front, c);
      var own := if Merges(cs, last) then [] else [AsPredicate(Bound(false, last, Bounds(cs, false, last)[0]))];
      BetweenCountAppend(LowerParts(cs, front), own, c);
      assert own != [] ==> own[..0] == [];
      assert Betweens([], c) == 0;
    }
  }

  // ----- bounds, told by their form -----

  /** A comparison over no other column that says that `c` is at most the other side, or in which the other side is at
      least `c`; a comparison of two bare columns bounds its left one. */
  ghost predicate BoundsAbove(p: Expr, c: Column) {
    && Columns(p) == {c} && p.Cmp?
    && ((p.op == LessEqual && p.lhs == Col(c)) || (p.op == GreaterEqual && p.rhs == Col(c) && !p.lhs.Col?))
  }

  ghost predicate BoundsBelow(p: Expr, c: Column) {
    && Columns(p) == {c} && p.Cmp?
    && ((p.op == GreaterEqual && p.lhs == Col(c)) || (p.op == LessEqual && p.rhs == Col(c) && !p.lhs.Col?))
  }

  ghost predicate BoundsFrom(p: Expr, upper: bool, c: Column) { if upper then BoundsAbove(p, c) else BoundsBelow(p, c) }

  /** The places in a list of conjuncts that bound a column from one direction. */
  ghost function Places(cs: seq<Expr>, upper: bool, c: Column): set<nat> {
    set i: nat | i < |cs| && BoundsFrom(cs[i], upper, c)
  }

  ghost predicate OneOfEach(cs: seq<Expr>, c: Column) { |Places(cs, true, c)| == 1 && |Places(cs, false, c)| == 1 }

  lemma {:induction false} ComparisonColumns(p: Expr)
    requires p.Cmp?
    ensures Columns(p) == Columns(p.lhs) + Columns(p.rhs)
  {
    assert Kids(p) == [p.lhs, p.rhs];
  }

  lemma {:induction false} OnlyColumn(cs: set<Column>, c: Column)
    requires c in cs
    ensures |cs| == 1 <==> cs == {c}
  {
    if |cs| == 1 {
      assert |cs - {c}| == 0;
    }
  }

  /** Where a comparison has a bare column, it is over that column only iff it is over one column. */
  lemma {:induction false} BareColumns(p: Expr)
    requires p.Cmp?
    ensures p.lhs.Col? ==> (|Columns(p)| == 1 <==> Columns(p) == {p.lhs.column})
    ensures p.rhs.Col? ==> (|Columns(p)| == 1 <==> Columns(p) == {p.rhs.column})
    ensures Columns(p.lhs) <= Columns(p) && Columns(p.rhs) <= Columns(p)
    ensures forall c :: Columns(p) == {c} ==> |Columns(p)| == 1
  {
    ComparisonColumns(p);
    if p.lhs.Col? {
      OwnColumn(p.lhs.column);
      OnlyColumn(Columns(p), p.lhs.column);
    }
    if p.rhs.Col? {
      OwnColumn(p.rhs.column);
      OnlyColumn(Columns(p), p.rhs.column);
    }
    hide Columns;
  }

  lemma {:induction false} BareColumn(p: Expr, c: Column)
    requires p.Cmp?
    ensures p.lhs == Col(c) || p.rhs == Col(c) ==> (|Columns(p)| == 1 <==> Columns(p) == {c})
  {
    BareColumns(p);
    hide Columns;
  }

  /** The bound that a comparison puts on a column. */
  ghost function BoundOn(p: Expr, upper: bool, c: Column): Option<Expr>
    requires p.Cmp?
  {
    if p.op == (if upper then LessEqual else GreaterEqual) && p.lhs == Col(c) then Some(p.rhs)
    else if p.op == (if upper then GreaterEqual else LessEqual) && p.rhs == Col(c) && !p.lhs.Col? then Some(p.lhs)
    else None
  }

  lemma {:induction false} ValuesAre(p: Expr, upper: bool, c: Column)
    requires p.Cmp?
    ensures ValuesOf(p, upper, c) ==
      if |Columns(p)| == 1 && BoundOn(p, upper, c).Some? then [BoundOn(p, upper, c).value] else []
  {
    hide Columns;
  }

  lemma {:induction false} FromIs(p: Expr, upper: bool, c: Column)
    requires p.Cmp?
    ensures BoundsFrom(p, upper, c) <==> Columns(p) == {c} && BoundOn(p, upper, c).Some?
  {
    hide Columns;
  }

  lemma {:induction false} ValuesExactly(p: Expr, upper: bool, c: Column)
    ensures |ValuesOf(p, upper, c)| == if BoundsFrom(p, upper, c) then 1 else 0
    ensures ValuesOf(p, upper, c) != [] ==> Columns(ValuesOf(p, upper, c)[0]) <= {c} && Columns(p) == {c} && p.Cmp?
  {
    hide Columns;
    if p.Cmp? {
      ValuesAre(p, upper, c);
      FromIs(p, upper, c);
      BareColumns(p);
      BareColumn(p, c);
      hide ValuesOf;
      hide BoundsFrom;
    }
  }

  lemma {:induction false} PlacesStep(cs: seq<Expr>, p: Expr, upper: bool, c: Column)
    ensures |Places(cs + [p], upper, c)| == |Places(cs, upper, c)| + if BoundsFrom(p, upper, c) then 1 else 0
  {
    hide BoundsFrom;
    var all := cs + [p];
    assert forall i :: 0 <= i < |cs| ==> all[i] == cs[i];
    if BoundsFrom(p, upper, c) {
      assert Places(all, upper, c) == Places(cs, upper, c) + {|cs|};
    } else {
      assert Places(all, upper, c) == Places(cs, upper, c);
    }
  }

  lemma {:induction false} BoundsAreAtPlaces(cs: seq<Expr>, upper: bool, c: Column)
    ensures |Bounds(cs, upper, c)| == |Places(cs, upper, c)|
  {
    if cs == [] {
      assert Places(cs, upper, c) == {};
    } else {
      var front, last := cs[..|cs| - 1], cs[|cs| - 1];
      assert cs == front + [last];
      BoundsAreAtPlaces(front, upper, c);
      hide BoundsFrom;
      hide ValuesOf;
      PlacesStep(front, last, upper, c);
      ValuesExactly(last, upper, c);
    }
  }

  lemma {:induction false} MergesExactly(cs: seq<Expr>, c: Column)
    ensures Merges(cs, c) <==> OneOfEach(cs, c)
  {
    BoundsAreAtPlaces(cs, true, c);
    BoundsAreAtPlaces(cs, false, c);
    hide Bounds;
    hide Places;
  }

  /** A column gets one more BETWEEN iff it has exactly one upper and exactly one lower bound. */
  lemma {:induction false} BetweenIffMerges(cs: seq<Expr>, c: Column)
    ensures Betweens(MergedConjuncts(cs), c) == Betweens(cs, c) + if OneOfEach(cs, c) then 1 else 0
  {
    MergesExactly(cs, c);
    hide OneOfEach;
    var upper, lower := BoundedColumns(cs, true), BoundedColumns(cs, false);
    BetweensRemaining(cs, c);
    BetweensUpper(cs, upper, c);
    BetweensLower(cs, lower, c);
    assert Merges(cs, c) ==> c in upper;
    hide Merges;
    hide Bounds;
    hide BoundedColumns;
    BetweenCountAppend(Remaining(cs), UpperParts(cs, upper), c);
    BetweenCountAppend(Remaining(cs) + UpperParts(cs, upper), LowerParts(cs, lower), c);
  }

  // ----- bounds that are left -----

  lemma {:induction false} PlacesAppend(ps: seq<Expr>, qs: seq<Expr>, upper: bool, c: Column)
    ensures |Places(ps + qs, upper, c)| == |Places(ps, upper, c)| + |Places(qs, upper, c)|
  {
    hide BoundsFrom;
    if qs == [] {
      assert ps + qs == ps && Places(qs, upper, c) == {};
    } else {
      var front, last := qs[..|qs| - 1], qs[|qs| - 1];
      assert qs == front + [last] && ps + qs == (ps + front) + [last];
      hide Places;
      PlacesAppend(ps, front, upper, c);
      PlacesStep(ps + front, last, upper, c);
      PlacesStep(front, last, upper, c);
    }
  }

  lemma {:induction false} OnePlace(p: Expr, upper: bool, c: Column)
    ensures |Places([p], upper, c)| == if BoundsFrom(p, upper, c) then 1 else 0
    ensures |Places([], upper, c)| == 0
  {
    assert Places([], upper, c) == {};
    PlacesStep([], p, upper, c);
    assert [] + [p] == [p];
    hide BoundsFrom;
  }

  lemma {:induction false} FromBoundOf(p: Expr, upper: bool, c: Column)
    ensures BoundsFrom(p, upper, c) <==>
      BoundOf(p).Some? && BoundOf(p).value.upper == upper && BoundOf(p).value.column == c
  {
    ValuesExactly(p, upper, c);
    hide BoundOf;
    hide BoundsFrom;
  }

  /** All bounds but the first of each direction remain. */
  lemma {:induction false} PlacesRemaining(cs: seq<Expr>, upper: bool, c: Column)
    ensures |Places(Remaining(cs), upper, c)| + (if Places(cs, upper, c) != {} then 1 else 0) == |Places(cs, upper, c)|
  {
    if cs == [] {
      assert Places([], upper, c) == {};
    } else {
      var front, last := cs[..|cs| - 1], cs[|cs| - 1];
      assert cs == front + [last];
      var own := RemainingStep(cs);
      PlacesRemaining(front, upper, c);
      hide *;
      PlacesStep(front, last, upper, c);
      PlacesAppend(Remaining(front), own, upper, c);
      OnePlace(last, upper, c);
      FromBoundOf(last, upper, c);
      BoundsAreAtPlaces(front, upper, c);
    }
  }

  lemma {:induction false} RemainingStep(cs: seq<Expr>) returns (own: seq<Expr>)
    requires cs != []
    ensures var front, last := cs[..|cs| - 1], cs[|cs| - 1];
      && Remaining(cs) == Remaining(front) + own
      && own == if BoundOf(last).None? || Bounds(front, BoundOf(last).value.upper, BoundOf(last).value.column) != []
                then [last] else []
  {
    hide BoundOf;
    hide Bounds;
    var front, b := cs[..|cs| - 1], BoundOf(cs[|cs| - 1]);
    own := if b.None? || Bounds(front, b.value.upper, b.value.column) != [] then [cs[|cs| - 1]] else [];
  }

  lemma {:induction false} ValueColumns(cs: seq<Expr>, upper: bool, c: Column)
    requires Bounds(cs, upper, c) != []
    ensures Columns(Bounds(cs, upper, c)[0]) <= {c}
  {
    var front, last := cs[..|cs| - 1], cs[|cs| - 1];
    assert Bounds(cs, upper, c) == Bounds(front, upper, c) + ValuesOf(last, upper, c);
    ValuesExactly(last, upper, c);
    if Bounds(front, upper, c) != [] {
      ValueColumns(front, upper, c);
    }
    hide Columns;
    hide Bounds;
    hide ValuesOf;
  }

  /** A first bound is emitted as a bound of its direction. */
  lemma {:induction false} EmittedBound(cs: seq<Expr>, upper: bool, c: Column, up: bool, d: Column)
    requires Bounds(cs, upper, c) != []
    ensures BoundsFrom(AsPredicate(Bound(upper, c, Bounds(cs, upper, c)[0])), up, d) <==> up == upper && d == c
  {
    ValueColumns(cs, upper, c);
    var v := Bounds(cs, upper, c)[0];
    hide Bounds;
    var p := AsPredicate(Bound(upper, c, v));
    ComparisonColumns(p);
    OwnColumn(c);
    assert Columns(p) == {c};
    hide Columns;
  }

  lemma {:induction false} PlacesUpper(cs: seq<Expr>, columns: seq<Column>, upper: bool, c: Column)
    requires (forall x :: x in columns ==> Bounds(cs, true, x) != []) && Distinct(columns)
    ensures |Places(UpperParts(cs, columns), upper, c)|
         == if upper && c in columns && !Merges(cs, c) then 1 else 0
  {
    hide Bounds;
    hide Merges;
    hide Places;
    hide BoundsFrom;
    if columns == [] {
      OnePlace(Lit(Null), upper, c);
    } else {
      var front, last := columns[..|columns| - 1], columns[|columns| - 1];
      assert columns == front + [last] && last !in front;
      PlacesUpper(cs, front, upper, c);
      var part := UpperPart(cs, last);
      assert UpperParts(cs, columns) == UpperParts(cs, front) + [part];
      PlacesStep(UpperParts(cs, front), part, upper, c);
      EmittedBound(cs, true, last, upper, c);
      BetweenIsNoBound(part, upper, c);
    }
  }

  lemma {:induction false} BetweenIsNoBound(p: Expr, upper: bool, c: Column)
    ensures p.Between? ==> !BoundsFrom(p, upper, c)
  {
    hide Columns;
  }

  lemma {:induction false} PlacesLower(cs: seq<Expr>, columns: seq<Column>, upper: bool, c: Column)
    requires (forall x :: x in columns ==> Bounds(cs, false, x) != []) && Distinct(columns)
    ensures |Places(LowerParts(cs, columns), upper, c)|
         == if !upper && c in columns && !Merges(cs, c) then 1 else 0
  {
    hide Bounds;
    hide Merges;
    hide Places;
    hide BoundsFrom;
    if columns == [] {
      OnePlace(Lit(Null), upper, c);
    } else {
      var front, last := columns[..|columns| - 1], columns[|columns| - 1];
      assert columns == front + [last] && last !in front;
      PlacesLower(cs, front, upper, c);
      var part := AsPredicate(Bound(false, last, Bounds(cs, false, last)[0]));
      assert LowerParts(cs, columns) == LowerParts(cs, front) + if Merges(cs, last) then [] else [part];
      PlacesStep(LowerParts(cs, front), part, upper, c);
      assert LowerParts(cs, front) + [] == LowerParts(cs, front);
      EmittedBound(cs, false, last, upper, c);
    }
  }

  lemma {:induction false} PlacesBySize(cs: seq<Expr>, upper: bool, c: Column)
    ensures c in BoundedColumns(cs, upper) <==> |Places(cs, upper, c)| > 0
    ensures Places(cs, upper, c) != {} <==> |Places(cs, upper, c)| > 0
  {
    BoundsAreAtPlaces(cs, upper, c);
    hide BoundsFrom;
    hide BoundOf;
  }

  /** A merged column has no bounds left, and all others have as many as before. */
  lemma {:induction false} PlacesMerged(cs: seq<Expr>, upper: bool, c: Column)
    ensures |Places(MergedConjuncts(cs), upper, c)| == if OneOfEach(cs, c) then 0 else |Places(cs, upper, c)|
  {
    var up, low := BoundedColumns(cs, true), BoundedColumns(cs, false);
    MergesExactly(cs, c);
    PlacesRemaining(cs, upper, c);
    PlacesBySize(cs, upper, c);
    PlacesUpper(cs, up, upper, c);
    PlacesLower(cs, low, upper, c);
    assert OneOfEach(cs, c) ==> |Places(cs, upper, c)| == 1;
    hide OneOfEach;
    hide Merges;
    hide Bounds;
    hide BoundedColumns;
    hide Places;
    PlacesAppend(Remaining(cs), UpperParts(cs, up), upper, c);
    PlacesAppend(Remaining(cs) + UpperParts(cs, up), LowerParts(cs, low), upper, c);
  }

  /** No conjunction that is reached through NOT and OR has exactly one bound of each direction on a column. */
  ghost predicate Settled(p: Expr) {
    match p
    case And(cs) => forall c :: !OneOfEach(cs, c)
    case Or(cs) => forall i :: 0 <= i < |cs| ==> Settled(cs[i])
    case Not(c) => Settled(c)
    case _ => true
  }

  lemma {:induction false} MergedIsSettled(cs: seq<Expr>)
    ensures forall c :: !OneOfEach(MergedConjuncts(cs), c)
  {
    forall c ensures !OneOfEach(MergedConjuncts(cs), c) {
      PlacesMerged(cs, true, c);
      PlacesMerged(cs, false, c);
      hide MergedConjuncts;
      hide Places;
    }
  }

  // ----- whole predicates -----

  /** What `_BetweenPredCreator` makes of a predicate. */
  function InferBetween(p: Expr): (r: Expr)
    requires IsPredicate(p)
  {
    match p
    case And(cs) =>
      MergedParts(cs);
      CreateAnd(MergedConjuncts(cs)).value
    case Or(cs) =>
      Or(seq(|cs|, i requires 0 <= i < |cs| => InferBetween(cs[i])))
    case Not(c) => Not(InferBetween(c))
    case _ => p
  }

  /** The visitor, with the loop over the conjuncts of a conjunction. */
  method Visit(p: Expr) returns (r: Expr)
    requires IsPredicate(p)
    ensures r == InferBetween(p)
  {
    if p.And? {
      r := VisitAndPredicate(p.children);
    } else if p.Or? {
      var children: seq<Expr> := [];
      for i := 0 to |p.children|
        invariant |children| == i && forall j :: 0 <= j < i ==> children[j] == InferBetween(p.children[j])
      {
        var child := Visit(p.children[i]);
        children := children + [child];
      }
      r := Or(children);
    } else if p.Not? {
      var child := Visit(p.child);
      r := Not(child);
    } else {
      r := p;
    }
  }

  lemma {:induction false} MergedPredicates(cs: seq<Expr>)
    requires forall c :: c in cs ==> IsPredicate(c)
    ensures forall p :: p in MergedConjuncts(cs) ==> IsPredicate(p)
  {
    forall p | p in MergedConjuncts(cs) ensures IsPredicate(p) {
      var q, other := PartHasConjuncts(cs, p);
    }
  }

  lemma {:induction false} InferBetweenIsPredicate(p: Expr)
    requires IsPredicate(p)
    ensures IsPredicate(InferBetween(p))
  {
    match p {
      case And(cs) =>
        assert forall c :: c in cs ==> IsPredicate(c);
        MergedParts(cs);
        MergedPredicates(cs);
        hide MergedConjuncts;
        CreateAndParts(MergedConjuncts(cs));
      case Or(cs) =>
        forall i | 0 <= i < |cs| ensures IsPredicate(InferBetween(cs[i])) {
          InferBetweenIsPredicate(cs[i]);
        }
      case Not(c) =>
        InferBetweenIsPredicate(c);
      case _ =>
    }
  }

  lemma {:induction false} CreateAndHolds(w: World, ps: seq<Expr>, r: Row)
    requires ps != []
    ensures Holds(w, CreateAnd(ps).value, r) == HoldsAll(w, SeqSet(ps), r)
  {
    hide Holds;
    if |ps| == 1 {
      assert SeqSet(ps) == {ps[0]};
      assert Verdicts(w, {ps[0]}, r) == {Holds(w, ps[0], r)};
    } else {
      AndIsHoldsAll(w, ps, r);
    }
  }

  /** Inferring BETWEEN keeps the truth value of a predicate on every row. */
  lemma {:induction false} InferBetweenHolds(w: World, p: Expr, r: Row)
    requires IsPredicate(p)
    ensures Holds(w, InferBetween(p), r) == Holds(w, p, r)
  {
    match p {
      case And(cs) =>
        MergedParts(cs);
        hide MergedConjuncts;
        CreateAndHolds(w, MergedConjuncts(cs), r);
        MergedHolds(w, cs, r);
        AndIsHoldsAll(w, cs, r);
      case Or(cs) =>
        var q := InferBetween(p);
        forall i | 0 <= i < |cs| ensures Holds(w, q.children[i], r) == Holds(w, cs[i], r) {
          InferBetweenHolds(w, cs[i], r);
        }
        OrHolds(w, q.children, cs, r);
      case Not(c) =>
        InferBetweenHolds(w, c, r);
      case _ =>
    }
  }

  lemma {:induction false} OrHolds(w: World, ps: seq<Expr>, qs: seq<Expr>, r: Row)
    requires |ps| == |qs| && forall i :: 0 <= i < |ps| ==> Holds(w, ps[i], r) == Holds(w, qs[i], r)
    ensures Holds(w, Or(ps), r) == Holds(w, Or(qs), r)
  {
    var vs, us := EvalKids(w, Or(ps), r), EvalKids(w, Or(qs), r);
    assert forall i :: 0 <= i < |ps| ==> ToTruth(vs[i]) == ToTruth(us[i]);
    hide Eval;
    assert TruthsOf(vs) == TruthsOf(us);
  }

  /** Inference leaves no conjunction with exactly one bound of each direction on a column. */
  lemma {:induction false} InferIsSettled(p: Expr)
    requires IsPredicate(p)
    ensures Settled(InferBetween(p))
  {
    match p {
      case And(cs) =>
        MergedParts(cs);
        MergedIsSettled(cs);
        if |MergedConjuncts(cs)| == 1 {
          SingleIsBetween(cs);
        }
        hide MergedConjuncts;
        hide OneOfEach;
      case Or(cs) =>
        forall i | 0 <= i < |cs| ensures Settled(InferBetween(cs[i])) {
          InferIsSettled(cs[i]);
        }
      case Not(c) =>
        InferIsSettled(c);
      case _ =>
    }
  }

  /** Where several conjuncts become one, that one is a BETWEEN. */
  lemma {:induction false} SingleIsBetween(cs: seq<Expr>)
    requires |cs| >= 2 && |MergedConjuncts(cs)| == 1
    ensures MergedConjuncts(cs)[0].Between?
  {
    MergedCount(cs);
    var m := MergedConjuncts(cs);
    hide MergedConjuncts;
    hide Merges;
    hide BoundedColumns;
    var c :| c in MergedColumns(cs);
    BetweenIffMerges(cs, c);
    MergesExactly(cs, c);
    hide OneOfEach;
    assert m[..0] == [];
  }

  /** `r` has one more BETWEEN on a column than `flat` iff `flat` has exactly one bound of each direction on it. */
  ghost predicate MergesBounds(flat: Expr, r: Expr) {
    forall c :: Betweens(TopConjuncts(r), c)
             == Betweens(TopConjuncts(flat), c) + if OneOfEach(TopConjuncts(flat), c) then 1 else 0
  }

  lemma {:induction false} OneIsNotBoth(p: Expr, c: Column)
    ensures !OneOfEach([p], c)
  {
    OnePlace(p, true, c);
    OnePlace(p, false, c);
    hide Columns;
    hide Places;
  }

  lemma {:induction false} MergedAreTop(p: Expr)
    requires IsPredicate(p) && p.And?
    ensures TopConjuncts(InferBetween(p)) == MergedConjuncts(p.children)
  {
    MergedParts(p.children);
    if |MergedConjuncts(p.children)| == 1 {
      SingleIsBetween(p.children);
    }
    hide MergedConjuncts;
  }

  lemma {:induction false} OtherKeepsBetweens(p: Expr, c: Column)
    requires IsPredicate(p) && !p.And?
    ensures Betweens(TopConjuncts(InferBetween(p)), c) == Betweens(TopConjuncts(p), c)
  {
    assert [p][..0] == [] && [InferBetween(p)][..0] == [];
  }

  lemma {:induction false} InferMergesBounds(flat: Expr)
    requires IsPredicate(flat) && forall c :: c in TopConjuncts(flat) ==> !c.And?
    ensures MergesBounds(flat, InferBetween(flat))
  {
    forall c
      ensures Betweens(TopConjuncts(InferBetween(flat)), c)
           == Betweens(TopConjuncts(flat), c) + if OneOfEach(TopConjuncts(flat), c) then 1 else 0
    {
      hide InferBetween;
      hide MergedConjuncts;
      hide OneOfEach;
      hide Betweens;
      if flat.And? {
        MergedAreTop(flat);
        BetweenIffMerges(flat.children, c);
      } else {
        OtherKeepsBetweens(flat, c);
        OneIsNotBoth(flat, c);
      }
    }
  }

  /** `infer_between_predicates` on the root of a WHERE clause. */
  method InferBetweenPredicates(where: Expr) returns (r: Expr)
    requires IsPredicate(where)
    ensures exists flat :: IsFlattening(where, flat) && r == InferBetween(flat) && MergesBounds(flat, r)
    ensures Settled(r)
  {
    var flat := FlattenAndPredicate(where);
    r := Visit(flat);
    FlatteningIsFlat(where, flat);
    InferMergesBounds(flat);
    InferIsSettled(flat);
  }

  lemma {:induction false} FlatteningIsFlat(p: Expr, flat: Expr)
    requires IsPredicate(p) && IsFlattening(p, flat)
    ensures IsPredicate(flat) && forall c :: c in TopConjuncts(flat) ==> !c.And?
  {
    forall c | c in TopConjuncts(flat) ensures !c.And? {
      ConjunctIsFlat(p, c);
    }
  }
}
