/** The rows of a FROM clause, in order and with duplicates. */
module FromClause {
  import opened Sql
  import opened Query

  /** The rows of every table, in some order. */
  type Relations = map<Table, seq<map<string, Value>>>

  // ----- the shape of FROM items -----

  /** Inner joins need a condition; conditions are predicates. */
  predicate ValidSource(src: TableSource) {
    match src
    case Leaf(_, _) => true
    case JoinSource(l, r, kind, condition) =>
      && ValidSource(l) && ValidSource(r)
      && (kind == InnerJoin ==> condition.Some?)
      && (condition.Some? ==> IsPredicate(condition.value))
  }

  predicate OnlyInner(src: TableSource) {
    match src
    case Leaf(_, _) => true
    case JoinSource(l, r, kind, _) => kind in {InnerJoin, CrossJoin} && OnlyInner(l) && OnlyInner(r)
  }

  /** The kinds of joins in a part of the FROM clause. */
  ghost function JoinKinds(src: TableSource): set<JoinType> {
    match src
    case Leaf(_, _) => {}
    case JoinSource(l, r, kind, _) => JoinKinds(l) + JoinKinds(r) + {kind}
  }

  lemma {:induction false} OnlyInnerExactly(src: TableSource)
    ensures OnlyInner(src) <==> JoinKinds(src) <= {InnerJoin, CrossJoin}
  {
    if src.JoinSource? {
      OnlyInnerExactly(src.lhs);
      OnlyInnerExactly(src.rhs);
    }
  }

  /** Some join in the FROM clause is an outer or natural join. */
  ghost predicate HasOtherJoin(from: seq<TableSource>) {
    exists src :: src in from && !(JoinKinds(src) <= {InnerJoin, CrossJoin})
  }

  lemma {:induction false} OtherJoinExactly(from: seq<TableSource>)
    ensures HasOtherJoin(from) <==> exists src :: src in from && !OnlyInner(src)
  {
    hide JoinKinds;
    hide OnlyInner;
    forall src ensures OnlyInner(src) <==> JoinKinds(src) <= {InnerJoin, CrossJoin} {
      OnlyInnerExactly(src);
    }
  }

  /** Every alias occurs once, and the ON conditions mention tables of their own join only. */
  predicate Scoped(src: TableSource) {
    match src
    case Leaf(_, _) => true
    case JoinSource(l, r, kind, condition) =>
      && Scoped(l) && Scoped(r) && SourceTables(l) !! SourceTables(r)
      && (kind == InnerJoin && condition.Some? ==> Tables(condition.value) <= SourceTables(src))
  }

  predicate ScopedFrom(from: seq<TableSource>) {
    from != [] ==> Scoped(from[0]) && SourceTables(from[0]) !! FromTables(from[1..]) && ScopedFrom(from[1..])
  }

  /** The ON conditions that restrict the rows of a FROM item. */
  function OnConditions(src: TableSource): set<Expr> {
    match src
    case Leaf(_, _) => {}
    case JoinSource(l, r, kind, condition) =>
      OnConditions(l) + OnConditions(r) + if kind == InnerJoin && condition.Some? then {condition.value} else {}
  }

  function AllOnConditions(from: seq<TableSource>): set<Expr> {
    if from == [] then {} else OnConditions(from[0]) + AllOnConditions(from[1..])
  }

  function AllLeaves(from: seq<TableSource>): seq<TableSource> {
    if from == [] then [] else Leaves(from[0]) + AllLeaves(from[1..])
  }

  // ----- rows -----

  ghost function Extend(x: Row, rows: seq<Row>): seq<Row> {
    seq(|rows|, i requires 0 <= i < |rows| => x + rows[i])
  }

  /** The nested loop over two row sequences. */
  ghost function Product(a: seq<Row>, b: seq<Row>): seq<Row> {
    if a == [] then [] else Extend(a[0], b) + Product(a[1..], b)
  }

  /** The rows on which all conditions are True. */
  ghost function Keep(w: World, ps: set<Expr>, rows: seq<Row>): seq<Row> {
    if rows == [] then []
    else (if Satisfies(w, ps, rows[0]) then [rows[0]] else []) + Keep(w, ps, rows[1..])
  }

  ghost function LeafRows(db: Relations, t: Table): seq<Row> {
    if t in db then seq(|db[t]|, i requires 0 <= i < |db[t]| => map[t := db[t][i]]) else []
  }

  ghost function SourceRows(w: World, db: Relations, src: TableSource): seq<Row>
    requires OnlyInner(src)
  {
    match src
    case Leaf(_, t) => LeafRows(db, t)
    case JoinSource(l, r, kind, condition) =>
      Keep(w, if kind == InnerJoin && condition.Some? then {condition.value} else {},
        Product(SourceRows(w, db, l), SourceRows(w, db, r)))
  }

  ghost function FromRows(w: World, db: Relations, from: seq<TableSource>): seq<Row>
    requires forall src :: src in from ==> OnlyInner(src)
  {
    if from == [] then [map[]] else Product(SourceRows(w, db, from[0]), FromRows(w, db, from[1..]))
  }

  function OptionSet(p: Option<Expr>): set<Expr> { if p.None? then {} else {p.value} }

  /** The rows that a query selects, before its projection. */
  ghost function QueryRows(w: World, db: Relations, q: SelectQuery): seq<Row>
    requires forall src :: src in q.from ==> OnlyInner(src)
  {
    Keep(w, OptionSet(q.where), FromRows(w, db, q.from))
  }

  // ----- products -----

  lemma {:induction false} ProductAppend(a: seq<Row>, b: seq<Row>, c: seq<Row>)
    ensures Product(a + b, c) == Product(a, c) + Product(b, c)
  {
    if a == [] {
      assert a + b == b;
    } else {
      assert (a + b)[1..] == a[1..] + b;
      ProductAppend(a[1..], b, c);
    }
  }

  lemma {:induction false} ExtendTwice(x: Row, y: Row, rows: seq<Row>)
    ensures Extend(x, Extend(y, rows)) == Extend(x + y, rows)
  {
    forall i | 0 <= i < |rows| ensures x + (y + rows[i]) == (x + y) + rows[i] {}
  }

  lemma {:induction false} ExtendAppend(x: Row, a: seq<Row>, b: seq<Row>)
    ensures Extend(x, a + b) == Extend(x, a) + Extend(x, b)
  {}

  lemma {:induction false} ExtendProduct(x: Row, b: seq<Row>, c: seq<Row>)
    ensures Product(Extend(x, b), c) == Extend(x, Product(b, c))
  {
    if b != [] {
      ExtendProduct(x, b[1..], c);
      ExtendTwice(x, b[0], c);
      assert Extend(x, b)[1..] == Extend(x, b[1..]);
      assert Extend(x, b)[0] == x + b[0];
      ExtendAppend(x, Extend(b[0], c), Product(b[1..], c));
      hide Extend;
    }
  }

  lemma {:induction false} ProductAssociates(a: seq<Row>, b: seq<Row>, c: seq<Row>)
    ensures Product(Product(a, b), c) == Product(a, Product(b, c))
  {
    if a != [] {
      ProductAssociates(a[1..], b, c);
      ProductAppend(Extend(a[0], b), Product(a[1..], b), c);
      ExtendProduct(a[0], b, c);
    }
  }

  lemma {:induction false} ProductUnit(a: seq<Row>)
    ensures Product([map[]], a) == a
  {
    assert Extend(map[], a) == a by {
      forall i | 0 <= i < |a| ensures map[] + a[i] == a[i] {}
    }
    assert Product([map[]][1..], a) == [];
  }

  lemma {:induction false} FromRowsAppend(w: World, db: Relations, a: seq<TableSource>, b: seq<TableSource>)
    requires forall src :: src in a ==> OnlyInner(src)
    requires forall src :: src in b ==> OnlyInner(src)
    ensures FromRows(w, db, a + b) == Product(FromRows(w, db, a), FromRows(w, db, b))
  {
    if a == [] {
      assert a + b == b;
      ProductUnit(FromRows(w, db, b));
    } else {
      assert (a + b)[1..] == a[1..] + b;
      FromRowsAppend(w, db, a[1..], b);
      ProductAssociates(SourceRows(w, db, a[0]), FromRows(w, db, a[1..]), FromRows(w, db, b));
    }
  }

  // ----- restrictions -----

  lemma {:induction false} KeepAppend(w: World, ps: set<Expr>, a: seq<Row>, b: seq<Row>)
    ensures Keep(w, ps, a + b) == Keep(w, ps, a) + Keep(w, ps, b)
  {
    hide Satisfies;
    if a == [] {
      assert a + b == b;
    } else {
      assert (a + b)[1..] == a[1..] + b;
      KeepAppend(w, ps, a[1..], b);
    }
  }

  lemma {:induction false} KeepTwice(w: World, ps: set<Expr>, qs: set<Expr>, rows: seq<Row>)
    ensures Keep(w, ps, Keep(w, qs, rows)) == Keep(w, ps + qs, rows)
  {
    if rows != [] {
      KeepTwice(w, ps, qs, rows[1..]);
      SatisfiesBoth(w, ps, qs, rows[0]);
      hide Satisfies;
      var first := if Satisfies(w, qs, rows[0]) then [rows[0]] else [];
      KeepAppend(w, ps, first, Keep(w, qs, rows[1..]));
    }
  }

  lemma {:induction false} KeepSame(w: World, ps: set<Expr>, qs: set<Expr>, rows: seq<Row>)
    requires forall r :: r in rows ==> (Satisfies(w, ps, r) <==> Satisfies(w, qs, r))
    ensures Keep(w, ps, rows) == Keep(w, qs, rows)
  {
    if rows != [] {
      KeepSame(w, ps, qs, rows[1..]);
    }
  }

  ghost predicate RowsOver(rows: seq<Row>, ts: set<Table>) {
    forall r :: r in rows ==> r.Keys == ts
  }

  ghost predicate ScopedTo(ps: set<Expr>, ts: set<Table>) {
    forall p :: p in ps ==> Tables(p) <= ts
  }

  lemma {:induction false} SatisfiesSame(w: World, ps: set<Expr>, ts: set<Table>, x: Row, y: Row)
    requires ScopedTo(ps, ts) && forall t :: t in ts ==> t in x && t in y && x[t] == y[t]
    ensures Satisfies(w, ps, x) <==> Satisfies(w, ps, y)
  {
    forall p | p in ps ensures Holds(w, p, x) == Holds(w, p, y) {
      EvalOnTables(w, p, x, y);
    }
  }

  lemma {:induction false} KeepExtended(w: World, ps: set<Expr>, qs: set<Expr>, ta: set<Table>, tb: set<Table>,
      x: Row, b: seq<Row>)
    requires ScopedTo(ps, ta) && ScopedTo(qs, tb) && ta !! tb && x.Keys == ta && RowsOver(b, tb)
    ensures Keep(w, ps + qs, Extend(x, b)) == if Satisfies(w, ps, x) then Extend(x, Keep(w, qs, b)) else []
  {
    if b != [] {
      assert b[0] in b && RowsOver(b[1..], tb);
      hide *;
      JoinedSatisfies(w, ps, qs, ta, tb, x, b[0]);
      KeepExtended(w, ps, qs, ta, tb, x, b[1..]);
      ExtendFirst(x, b);
      KeepFirst(w, qs, b);
      KeepFirst(w, ps + qs, Extend(x, b));
      assert ([x + b[0]] + Extend(x, b[1..]))[1..] == Extend(x, b[1..]);
      if Satisfies(w, qs, b[0]) {
        ExtendFirst(x, Keep(w, qs, b));
        assert ([b[0]] + Keep(w, qs, b[1..]))[1..] == Keep(w, qs, b[1..]);
      }
    }
  }

  lemma {:induction false} ExtendFirst(x: Row, b: seq<Row>)
    requires b != []
    ensures Extend(x, b) == [x + b[0]] + Extend(x, b[1..])
  {}

  lemma {:induction false} KeepFirst(w: World, ps: set<Expr>, rows: seq<Row>)
    requires rows != []
    ensures Keep(w, ps, rows) ==
            if Satisfies(w, ps, rows[0]) then [rows[0]] + Keep(w, ps, rows[1..]) else Keep(w, ps, rows[1..])
  {}

  lemma {:induction false} JoinedSatisfies(w: World, ps: set<Expr>, qs: set<Expr>, ta: set<Table>, tb: set<Table>,
      x: Row, y: Row)
    requires ScopedTo(ps, ta) && ScopedTo(qs, tb) && ta !! tb && x.Keys == ta && y.Keys == tb
    ensures Satisfies(w, ps + qs, x + y) <==> Satisfies(w, ps, x) && Satisfies(w, qs, y)
  {
    hide Satisfies;
    hide ScopedTo;
    SatisfiesSame(w, ps, ta, x + y, x);
    SatisfiesSame(w, qs, tb, x + y, y);
    SatisfiesBoth(w, ps, qs, x + y);
  }

  lemma {:induction false} SatisfiesBoth(w: World, ps: set<Expr>, qs: set<Expr>, r: Row)
    ensures Satisfies(w, ps + qs, r) <==> Satisfies(w, ps, r) && Satisfies(w, qs, r)
  {}

  /** Restricting both sides of a product is restricting the product. */
  lemma {:induction false} ProductKeep(w: World, ps: set<Expr>, qs: set<Expr>, ta: set<Table>, tb: set<Table>,
      a: seq<Row>, b: seq<Row>)
    requires ScopedTo(ps, ta) && ScopedTo(qs, tb) && ta !! tb && RowsOver(a, ta) && RowsOver(b, tb)
    ensures Product(Keep(w, ps, a), Keep(w, qs, b)) == Keep(w, ps + qs, Product(a, b))
  {
    hide Satisfies;
    hide ScopedTo;
    if a != [] {
      ProductKeep(w, ps, qs, ta, tb, a[1..], b);
      KeepExtended(w, ps, qs, ta, tb, a[0], b);
      KeepAppend(w, ps + qs, Extend(a[0], b), Product(a[1..], b));
      var kept := Keep(w, ps, a[1..]);
      if Satisfies(w, ps, a[0]) {
        assert Keep(w, ps, a) == [a[0]] + kept;
        assert ([a[0]] + kept)[1..] == kept;
      } else {
        assert Keep(w, ps, a) == [] + kept == kept;
      }
    }
  }

  lemma {:induction false} ProductOver(a: seq<Row>, b: seq<Row>, ta: set<Table>, tb: set<Table>)
    requires RowsOver(a, ta) && RowsOver(b, tb)
    ensures RowsOver(Product(a, b), ta + tb)
  {
    if a != [] {
      ProductOver(a[1..], b, ta, tb);
    }
  }

  // ----- FROM items and their leaves -----

  lemma {:induction false} LeavesAreInner(src: TableSource)
    ensures forall x :: x in Leaves(src) ==> x.Leaf? && x.table in SourceTables(src)
  {
    if src.JoinSource? {
      LeavesAreInner(src.lhs);
      LeavesAreInner(src.rhs);
    }
  }

  lemma {:induction false} AllLeavesAreInner(from: seq<TableSource>)
    ensures forall x :: x in AllLeaves(from) ==> x.Leaf?
  {
    if from != [] {
      LeavesAreInner(from[0]);
      AllLeavesAreInner(from[1..]);
    }
  }

  lemma {:induction false} LeafRowsOver(db: Relations, t: Table)
    ensures RowsOver(LeafRows(db, t), {t})
  {}

  /** The rows of a FROM item are the rows of the product of its leaves on which its ON conditions are True. */
  lemma {:induction false} SourceRowsAre(w: World, db: Relations, src: TableSource)
    requires OnlyInner(src) && Scoped(src)
    ensures forall x :: x in Leaves(src) ==> OnlyInner(x)
    ensures SourceRows(w, db, src) == Keep(w, OnConditions(src), FromRows(w, db, Leaves(src)))
    ensures ScopedTo(OnConditions(src), SourceTables(src))
    ensures RowsOver(FromRows(w, db, Leaves(src)), SourceTables(src))
  {
    LeavesAreInner(src);
    match src
    case Leaf(_, t) =>
      LeafRowsOver(db, t);
      OneLeaf(w, db, src);
    case JoinSource(l, r, kind, condition) =>
      SourceRowsAre(w, db, l);
      SourceRowsAre(w, db, r);
      JoinRowsAre(w, db, src);
  }

  lemma {:induction false} KeepAll(w: World, rows: seq<Row>)
    ensures Keep(w, {}, rows) == rows
  {
    if rows != [] {
      KeepAll(w, rows[1..]);
    }
  }

  lemma {:induction false} OneLeaf(w: World, db: Relations, src: TableSource)
    requires src.Leaf?
    ensures FromRows(w, db, [src]) == LeafRows(db, src.table)
    ensures Keep(w, {}, FromRows(w, db, [src])) == LeafRows(db, src.table)
  {
    var rows := LeafRows(db, src.table);
    assert [src][1..] == [];
    ProductWithUnit(rows);
    KeepAll(w, rows);
  }

  lemma {:induction false} ProductWithUnit(a: seq<Row>)
    ensures Product(a, [map[]]) == a
  {
    if a != [] {
      ProductWithUnit(a[1..]);
      assert a[0] + map[] == a[0];
      assert Extend(a[0], [map[]]) == [a[0]];
    }
  }

  lemma {:induction false} JoinRowsAre(w: World, db: Relations, src: TableSource)
    requires OnlyInner(src) && Scoped(src) && src.JoinSource?
    requires forall x :: x in Leaves(src.lhs) ==> OnlyInner(x)
    requires forall x :: x in Leaves(src.rhs) ==> OnlyInner(x)
    requires SourceRows(w, db, src.lhs) == Keep(w, OnConditions(src.lhs), FromRows(w, db, Leaves(src.lhs)))
    requires SourceRows(w, db, src.rhs) == Keep(w, OnConditions(src.rhs), FromRows(w, db, Leaves(src.rhs)))
    requires ScopedTo(OnConditions(src.lhs), SourceTables(src.lhs))
    requires ScopedTo(OnConditions(src.rhs), SourceTables(src.rhs))
    requires RowsOver(FromRows(w, db, Leaves(src.lhs)), SourceTables(src.lhs))
    requires RowsOver(FromRows(w, db, Leaves(src.rhs)), SourceTables(src.rhs))
    ensures SourceRows(w, db, src) == Keep(w, OnConditions(src), FromRows(w, db, Leaves(src)))
    ensures ScopedTo(OnConditions(src), SourceTables(src))
    ensures RowsOver(FromRows(w, db, Leaves(src)), SourceTables(src))
  {
    var l, r := src.lhs, src.rhs;
    var a, b := FromRows(w, db, Leaves(l)), FromRows(w, db, Leaves(r));
    var ps, qs := OnConditions(l), OnConditions(r);
    var own := if src.joinType == InnerJoin && src.condition.Some? then {src.condition.value} else {};
    var rows := SourceRows(w, db, src);
    assert OnConditions(src) == own + (ps + qs);
    assert rows == Keep(w, own, Product(Keep(w, ps, a), Keep(w, qs, b)));
    assert ScopedTo(own, SourceTables(src));
    hide SourceRows;
    hide FromRows;
    hide OnConditions;
    hide Satisfies;
    hide Keep;
    hide Product;
    hide Tables;
    ProductKeep(w, ps, qs, SourceTables(l), SourceTables(r), a, b);
    KeepTwice(w, own, ps + qs, Product(a, b));
    FromRowsAppend(w, db, Leaves(l), Leaves(r));
    ProductOver(a, b, SourceTables(l), SourceTables(r));
  }

  /** The same for a whole FROM clause. */
  lemma {:induction false} FromRowsAre(w: World, db: Relations, from: seq<TableSource>)
    requires (forall src :: src in from ==> OnlyInner(src)) && ScopedFrom(from)
    ensures forall x :: x in AllLeaves(from) ==> OnlyInner(x)
    ensures FromRows(w, db, from) == Keep(w, AllOnConditions(from), FromRows(w, db, AllLeaves(from)))
    ensures ScopedTo(AllOnConditions(from), FromTables(from))
    ensures RowsOver(FromRows(w, db, AllLeaves(from)), FromTables(from))
  {
    hide OnlyInner;
    hide SourceRows;
    hide Product;
    hide Keep;
    AllLeavesAreInner(from);
    if from == [] {
      KeepAll(w, [map[]]);
    } else {
      var head, rest := from[0], from[1..];
      SourceRowsAre(w, db, head);
      FromRowsAre(w, db, rest);
      assert from == [head] + rest;
      assert FromTables(from) == SourceTables(head) + FromTables(rest);
      assert SourceTables(head) !! FromTables(rest);
      var a, b := FromRows(w, db, Leaves(head)), FromRows(w, db, AllLeaves(rest));
      assert FromRows(w, db, from) == Product(SourceRows(w, db, head), FromRows(w, db, rest));
      assert AllLeaves(from) == Leaves(head) + AllLeaves(rest);
      assert AllOnConditions(from) == OnConditions(head) + AllOnConditions(rest);
      hide *;
      ProductKeep(w, OnConditions(head), AllOnConditions(rest), SourceTables(head), FromTables(rest), a, b);
      FromRowsAppend(w, db, Leaves(head), AllLeaves(rest));
      ProductOver(a, b, SourceTables(head), FromTables(rest));
      ScopedToUnion(OnConditions(head), AllOnConditions(rest), SourceTables(head), FromTables(rest));
    }
  }

  lemma {:induction false} ScopedToUnion(ps: set<Expr>, qs: set<Expr>, ta: set<Table>, tb: set<Table>)
    requires ScopedTo(ps, ta) && ScopedTo(qs, tb)
    ensures ScopedTo(ps + qs, ta + tb)
  {
    hide Tables;
  }
}
