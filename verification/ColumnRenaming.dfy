/** Replacing column references in expressions and predicates. */
module ColumnRenaming {
  import opened Sql

  type Renaming = map<Column, Column>

  predicate IsPredicateNode(e: Expr) { !e.Col? && !e.Lit? && !e.App? }

  /** The parts of compound predicates are predicates, at every depth. */
  predicate Typed(e: Expr) {
    && (forall i :: 0 <= i < |Kids(e)| ==> Typed(Kids(e)[i]))
    && (e.And? || e.Or? || e.Not? ==> forall i :: 0 <= i < |Kids(e)| ==> IsPredicateNode(Kids(e)[i]))
  }

  ghost function RenamedAll(m: Renaming, cs: set<Column>): set<Column> { set c | c in cs :: if c in m then m[c] else c }

  /** `rename_columns_in_expression` */
  function RenameExpression(e: Expr, m: Renaming): (r: Expr)
    requires Typed(e)
    ensures IsPredicateNode(r) <==> IsPredicateNode(e)
    decreases e, 1
  {
    match e
    case Lit(_) => e
    case Col(c) => if c in m then Col(m[c]) else e
    case App(fn, args) => App(fn, seq(|args|, i requires 0 <= i < |args| =>
      assert Kids(e)[i] == args[i];
      RenameExpression(args[i], m)))
    case _ => RenamePredicate(e, m)
  }

  /** `rename_columns_in_predicate` */
  function RenamePredicate(p: Expr, m: Renaming): (r: Expr)
    requires Typed(p) && IsPredicateNode(p)
    ensures IsPredicateNode(r)
    decreases p, 0
  {
    assert forall k :: k in Kids(p) ==> Typed(k);
    match p
    case Cmp(op, lhs, rhs) =>
      assert lhs in Kids(p) && rhs in Kids(p);
      Cmp(op, RenameExpression(lhs, m), RenameExpression(rhs, m))
    case Between(x, lo, hi) =>
      assert x in Kids(p) && lo in Kids(p) && hi in Kids(p);
      Between(RenameExpression(x, m), RenameExpression(lo, m), RenameExpression(hi, m))
    case In(x, vs, negated) =>
      assert x in Kids(p);
      In(RenameExpression(x, m), seq(|vs|, i requires 0 <= i < |vs| =>
        assert Kids(p)[i + 1] == vs[i];
        RenameExpression(vs[i], m)), negated)
    case Unary(x, op) =>
      assert x in Kids(p);
      Unary(RenameExpression(x, m), op)
    case And(cs) => And(seq(|cs|, i requires 0 <= i < |cs| => RenamePredicate(cs[i], m)))
    case Or(cs) => Or(seq(|cs|, i requires 0 <= i < |cs| => RenamePredicate(cs[i], m)))
    case Not(c) =>
      assert Kids(p)[0] == c;
      Not(RenamePredicate(c, m))
  }

  // ----- one level -----

  lemma {:induction false} RenamedKids(e: Expr, m: Renaming)
    requires Typed(e) && !e.Col?
    ensures |Kids(RenameExpression(e, m))| == |Kids(e)|
    ensures forall i :: 0 <= i < |Kids(e)| ==>
      Typed(Kids(e)[i]) && Kids(RenameExpression(e, m))[i] == RenameExpression(Kids(e)[i], m)
  {
    forall i | 0 <= i < |Kids(e)| && IsPredicateNode(Kids(e)[i])
      ensures RenameExpression(Kids(e)[i], m) == RenamePredicate(Kids(e)[i], m) {}
    if e.In? {
      InKids(e, m);
    }
  }

  lemma {:induction false} InKids(e: Expr, m: Renaming)
    requires Typed(e) && e.In?
    ensures |Kids(RenameExpression(e, m))| == |Kids(e)|
    ensures forall i :: 0 <= i < |Kids(e)| ==>
      Typed(Kids(e)[i]) && Kids(RenameExpression(e, m))[i] == RenameExpression(Kids(e)[i], m)
  {
    var r := RenamePredicate(e, m);
    assert r == RenameExpression(e, m) && r.In?;
    assert |r.values| == |e.values|;
    forall i | 0 <= i < |Kids(e)| ensures Typed(Kids(e)[i]) && Kids(r)[i] == RenameExpression(Kids(e)[i], m) {
      if i == 0 {
        assert Kids(e)[i] == e.operand && Kids(r)[i] == r.operand;
      } else {
        assert Kids(e)[i] == e.values[i - 1] && Kids(r)[i] == r.values[i - 1];
      }
    }
  }

  /** Renaming leaves the operator at the top as it is. */
  lemma {:induction false} RenamedCombine(w: World, e: Expr, m: Renaming, vs: seq<Value>)
    requires Typed(e) && !e.Col? && |vs| == |Kids(e)|
    ensures |Kids(RenameExpression(e, m))| == |vs|
    ensures Combine(w, RenameExpression(e, m), vs) == Combine(w, e, vs)
  {
    RenamedKids(e, m);
  }

  // ----- meaning -----

  /** `r` seen through the renaming: `s` holds under the old names what `r` holds under the new ones. */
  ghost predicate SeenThrough(m: Renaming, cs: set<Column>, r: Row, s: Row) {
    forall c :: c in cs ==> ColumnValue(s, c) == ColumnValue(r, if c in m then m[c] else c)
  }

  /** The renamed expression has on a row the value that the original has on the row seen through the renaming. */
  lemma {:induction false} RenamedEval(w: World, e: Expr, m: Renaming, r: Row, s: Row)
    requires Typed(e) && SeenThrough(m, Columns(e), r, s)
    ensures Eval(w, RenameExpression(e, m), r) == Eval(w, e, s)
  {
    if e.Col? {
      OwnColumn(e.column);
    } else {
      RenamedKids(e, m);
      var renamed := RenameExpression(e, m);
      forall i | 0 <= i < |Kids(e)| ensures EvalKids(w, renamed, r)[i] == EvalKids(w, e, s)[i] {
        KidColumns(e, Kids(e)[i]);
        RenamedEval(w, Kids(e)[i], m, r, s);
      }
      assert EvalKids(w, renamed, r) == EvalKids(w, e, s);
      RenamedCombine(w, e, m, EvalKids(w, e, s));
    }
  }

  /** The same for the truth value of a predicate. */
  lemma {:induction false} RenamedHolds(w: World, p: Expr, m: Renaming, r: Row, s: Row)
    requires Typed(p) && IsPredicateNode(p) && SeenThrough(m, Columns(p), r, s)
    ensures Holds(w, RenamePredicate(p, m), r) == Holds(w, p, s)
  {
    RenamedEval(w, p, m, r, s);
    assert RenameExpression(p, m) == RenamePredicate(p, m);
    hide RenamePredicate;
    hide Eval;
  }

  function TablesOf(cs: set<Column>): set<Table> { set c | c in cs :: c.table }

  function NamesOf(cs: set<Column>, t: Table): set<string> { set c | c in cs && c.table == t :: c.name }

  /** There is such a row for every row. */
  lemma {:induction false} SomeRowSeenThrough(m: Renaming, cs: set<Column>, r: Row) returns (s: Row)
    ensures SeenThrough(m, cs, r, s)
  {
    s := map t | t in TablesOf(cs) ::
      map x | x in NamesOf(cs, t) :: ColumnValue(r, if Column(x, t) in m then m[Column(x, t)] else Column(x, t));
    forall c | c in cs ensures ColumnValue(s, c) == ColumnValue(r, if c in m then m[c] else c) {
      assert c.table in s && c.name in s[c.table];
      assert Column(c.name, c.table) == c;
    }
  }

  // ----- columns and undoing -----

  lemma {:induction false} RenamedColumns(e: Expr, m: Renaming)
    requires Typed(e)
    ensures Columns(RenameExpression(e, m)) == RenamedAll(m, Columns(e))
  {
    var r := RenameExpression(e, m);
    if e.Col? {
      OwnColumn(e.column);
      OwnColumn(if e.column in m then m[e.column] else e.column);
    } else {
      RenamedKids(e, m);
      forall i | 0 <= i < |Kids(e)|
        ensures Columns(Kids(r)[i]) == RenamedAll(m, Columns(Kids(e)[i]))
      {
        RenamedColumns(Kids(e)[i], m);
      }
      ColumnsOfKids(e);
      ColumnsOfKids(r);
      RenamedKidColumns(e, r, m);
    }
  }

  ghost predicate SomeKidHas(e: Expr, c: Column) {
    exists i :: 0 <= i < |Kids(e)| && c in Columns(Kids(e)[i])
  }

  lemma {:induction false} ColumnsOfKids(e: Expr)
    requires !e.Col?
    ensures forall c :: c in Columns(e) <==> SomeKidHas(e, c)
  {
    forall c ensures c in Columns(e) <==> SomeKidHas(e, c) {
      if c in Columns(e) {
        var k :| k in Kids(e) && c in Columns(k);
        var i :| 0 <= i < |Kids(e)| && Kids(e)[i] == k;
      }
      if SomeKidHas(e, c) {
        var i :| 0 <= i < |Kids(e)| && c in Columns(Kids(e)[i]);
        assert Kids(e)[i] in Kids(e);
      }
    }
  }

  lemma {:induction false} RenamedKidColumns(e: Expr, r: Expr, m: Renaming)
    requires |Kids(r)| == |Kids(e)|
    requires forall i :: 0 <= i < |Kids(e)| ==>
      Columns(Kids(r)[i]) == RenamedAll(m, Columns(Kids(e)[i]))
    requires forall c :: c in Columns(e) <==> SomeKidHas(e, c)
    requires forall c :: c in Columns(r) <==> SomeKidHas(r, c)
    ensures Columns(r) == RenamedAll(m, Columns(e))
  {
    hide Columns;
    hide SomeKidHas;
    hide RenamedAll;
    forall d | d in Columns(r) ensures d in RenamedAll(m, Columns(e)) {
      KidColumnRenamed(e, r, m, d);
    }
    forall d | d in RenamedAll(m, Columns(e)) ensures d in Columns(r) {
      RenamedInKid(e, r, m, d);
    }
  }

  lemma {:induction false} KidColumnRenamed(e: Expr, r: Expr, m: Renaming, d: Column)
    requires |Kids(r)| == |Kids(e)| && SomeKidHas(r, d)
    requires forall i :: 0 <= i < |Kids(e)| ==>
      Columns(Kids(r)[i]) == RenamedAll(m, Columns(Kids(e)[i]))
    requires forall c :: c in Columns(e) <==> SomeKidHas(e, c)
    ensures d in RenamedAll(m, Columns(e))
  {
    hide Columns;
    var i :| 0 <= i < |Kids(r)| && d in Columns(Kids(r)[i]);
    var c :| c in Columns(Kids(e)[i]) && d == if c in m then m[c] else c;
    assert SomeKidHas(e, c);
  }

  lemma {:induction false} RenamedInKid(e: Expr, r: Expr, m: Renaming, d: Column)
    requires |Kids(r)| == |Kids(e)| && d in RenamedAll(m, Columns(e))
    requires forall i :: 0 <= i < |Kids(e)| ==>
      Columns(Kids(r)[i]) == RenamedAll(m, Columns(Kids(e)[i]))
    requires forall c :: c in Columns(e) <==> SomeKidHas(e, c)
    requires forall c :: c in Columns(r) <==> SomeKidHas(r, c)
    ensures d in Columns(r)
  {
    hide Columns;
    var c :| c in Columns(e) && d == if c in m then m[c] else c;
    var i :| 0 <= i < |Kids(e)| && c in Columns(Kids(e)[i]);
    assert d in Columns(Kids(r)[i]);
    assert SomeKidHas(r, d);
  }

  lemma {:induction false} RenamedIsTyped(e: Expr, m: Renaming)
    requires Typed(e)
    ensures Typed(RenameExpression(e, m))
  {
    if !e.Col? {
      RenamedKids(e, m);
      var r := RenameExpression(e, m);
      forall i | 0 <= i < |Kids(e)| ensures Typed(Kids(r)[i]) {
        RenamedIsTyped(Kids(e)[i], m);
      }
    }
  }

  ghost predicate Undoes(m: Renaming, back: Renaming, cs: set<Column>) {
    forall c :: c in cs ==>
      var d := if c in m then m[c] else c;
      (if d in back then back[d] else d) == c
  }

  /** A second renaming undoes the first on an expression iff it does so on its columns. */
  lemma {:induction false} RenamingUndone(e: Expr, m: Renaming, back: Renaming)
    requires Typed(e)
    ensures Typed(RenameExpression(e, m))
    ensures RenameExpression(RenameExpression(e, m), back) == e <==> Undoes(m, back, Columns(e))
  {
    RenamedIsTyped(e, m);
    if e.Col? {
      OwnColumn(e.column);
    } else {
      var r := RenameExpression(e, m);
      RenamedKids(e, m);
      RenamedKids(r, back);
      forall i | 0 <= i < |Kids(e)|
        ensures Typed(Kids(r)[i])
        ensures RenameExpression(Kids(r)[i], back) == Kids(e)[i] <==> Undoes(m, back, Columns(Kids(e)[i]))
      {
        RenamingUndone(Kids(e)[i], m, back);
      }
      ColumnsOfKids(e);
      UndoneKids(e, m, back);
      SameIfKidsSame(e, m, back);
    }
  }

  lemma {:induction false} UndoneKids(e: Expr, m: Renaming, back: Renaming)
    requires forall c :: c in Columns(e) <==> SomeKidHas(e, c)
    ensures Undoes(m, back, Columns(e)) <==>
      forall i :: 0 <= i < |Kids(e)| ==> Undoes(m, back, Columns(Kids(e)[i]))
  {
    hide Columns;
    forall i, c | 0 <= i < |Kids(e)| && c in Columns(Kids(e)[i]) ensures c in Columns(e) {
      assert SomeKidHas(e, c);
    }
  }

  lemma {:induction false} SameIfKidsSame(e: Expr, m: Renaming, back: Renaming)
    requires Typed(e) && !e.Col? && Typed(RenameExpression(e, m))
    requires |Kids(RenameExpression(RenameExpression(e, m), back))| == |Kids(e)|
    ensures RenameExpression(RenameExpression(e, m), back) == e <==>
      forall i :: 0 <= i < |Kids(e)| ==> Kids(RenameExpression(RenameExpression(e, m), back))[i] == Kids(e)[i]
  {
    var r := RenameExpression(RenameExpression(e, m), back);
    SameOperator(e, m);
    SameOperator(RenameExpression(e, m), back);
    hide RenameExpression;
    hide Typed;
    SameKids(e, r);
  }

  /** Two expressions with the same constructor and operator. */
  predicate SameTop(e: Expr, r: Expr) {
    match e
    case Col(_) => false
    case Lit(_) => r == e
    case App(fn, _) => r.App? && r.fn == fn
    case Cmp(op, _, _) => r.Cmp? && r.op == op
    case Between(_, _, _) => r.Between?
    case In(_, _, negated) => r.In? && r.negated == negated
    case Unary(_, uop) => r.Unary? && r.uop == uop
    case And(_) => r.And?
    case Or(_) => r.Or?
    case Not(_) => r.Not?
  }

  lemma {:induction false} SameOperator(e: Expr, m: Renaming)
    requires Typed(e) && !e.Col?
    ensures SameTop(e, RenameExpression(e, m))
  {}

  lemma {:induction false} SameKids(e: Expr, r: Expr)
    requires SameTop(e, r) || (exists x :: SameTop(e, x) && SameTop(x, r))
    requires |Kids(r)| == |Kids(e)|
    ensures r == e <==> forall i :: 0 <= i < |Kids(e)| ==> Kids(r)[i] == Kids(e)[i]
  {
    if forall i :: 0 <= i < |Kids(e)| ==> Kids(r)[i] == Kids(e)[i] {
      assert Kids(r) == Kids(e);
      match e {
        case In(x, vs, _) =>
          assert Kids(e)[1..] == vs && Kids(r)[1..] == r.values;
          assert Kids(e)[0] == x && Kids(r)[0] == r.operand;
        case Between(x, lo, hi) =>
          assert Kids(e)[0] == x && Kids(e)[1] == lo && Kids(e)[2] == hi;
        case Cmp(_, lhs, rhs) =>
          assert Kids(e)[0] == lhs && Kids(e)[1] == rhs;
        case Unary(x, _) =>
          assert Kids(e)[0] == x;
        case Not(x) =>
          assert Kids(e)[0] == x;
        case _ =>
      }
    }
  }

  /** An injective renaming to columns that the expression does not mention is undone by its inverse. */
  lemma {:induction false} InverseUndoes(e: Expr, m: Renaming, back: Renaming)
    requires Typed(e)
    requires forall c :: c in m ==> m[c] in back && back[m[c]] == c
    requires forall c :: c in back ==> exists d :: d in m && m[d] == c
    requires forall c :: c in m ==> m[c] !in Columns(e)
    ensures Typed(RenameExpression(e, m)) && RenameExpression(RenameExpression(e, m), back) == e
  {
    RenamingUndone(e, m, back);
  }
}
