/** Which predicates join tables. */
module JoinPredicates {
  import opened Sql
  import opened QueryFragment

  /** A base predicate over several tables. If BETWEEN or IN test an operand without tables, the tables have to meet in
      one of the other operands. */
  ghost predicate JoinsTables(b: Expr) {
    && |Tables(b)| > 1
    && ((b.Between? || b.In?) && Tables(b.operand) == {} ==> exists k :: k in Kids(b) && |Tables(k)| > 1)
  }

  /** Whether some base predicate of a predicate hierarchy joins tables. */
  ghost predicate JoinsSomewhere(p: Expr) { exists b :: b in BaseParts(p) && JoinsTables(b) }

  lemma {:induction false} TablesOfKids(e: Expr)
    requires !e.Col?
    ensures forall t :: t in Tables(e) <==> exists k :: k in Kids(e) && t in Tables(k)
  {
    forall t | t in Tables(e) ensures exists k :: k in Kids(e) && t in Tables(k) {
      var c :| c in Columns(e) && c.table == t;
      var k :| k in Kids(e) && c in Columns(k);
    }
    forall t, k | k in Kids(e) && t in Tables(k) ensures t in Tables(e) {
      KidColumns(e, k);
    }
  }

  lemma {:induction false} Several(ts: set<Table>, t: Table)
    requires t in ts
    ensures |ts| > 1 <==> exists u :: u in ts && u != t
  {
    assert ts == {t} + (ts - {t});
    if |ts| > 1 {
      assert |ts - {t}| > 0;
      var u :| u in ts - {t};
    }
    if u :| u in ts && u != t {
      assert {u} <= ts - {t};
      assert u in ts - {t};
    }
  }

  lemma {:induction false} ComparisonJoins(p: Expr)
    requires p.Cmp?
    ensures IsJoin(p) <==> |Tables(p)| > 1
  {
    TablesOfKids(p);
    assert Kids(p) == [p.lhs, p.rhs];
    assert Tables(p) == Tables(p.lhs) + Tables(p.rhs);
    var a, b := Tables(p.lhs), Tables(p.rhs);
    hide Tables;
    UnionIsLarge(a, b);
  }

  lemma {:induction false} UnionIsLarge(a: set<Table>, b: set<Table>)
    ensures |a + b| > 1 <==> |a| > 1 || |b| > 1 || (a != {} && b != {} && a != b)
  {
    if a == {} {
      assert a + b == b;
    } else if b == {} {
      assert a + b == a;
    } else if a == b {
      assert a + b == a;
    } else {
      var x :| x in a + b && !(x in a && x in b);
      Several(a + b, x);
      var y :| y in if x in a then b else a;
      assert y in a + b && y != x;
    }
  }

  ghost predicate Unites(ts: set<Table>, x: set<Table>, ss: seq<set<Table>>) {
    forall t :: t in ts <==> t in x || exists i :: 0 <= i < |ss| && t in ss[i]
  }

  lemma {:induction false} TestWithTables(ts: set<Table>, x: set<Table>, ss: seq<set<Table>>)
    requires Unites(ts, x, ss) && x != {}
    ensures |ts| > 1 <==> |x| > 1 || exists i :: 0 <= i < |ss| && |x + ss[i]| > 1
  {
    var t :| t in x;
    Several(ts, t);
    Several(x, t);
    if |ts| > 1 {
      var u :| u in ts && u != t;
      if u !in x {
        var i :| 0 <= i < |ss| && u in ss[i];
        Several(x + ss[i], t);
      }
    }
    if i :| 0 <= i < |ss| && |x + ss[i]| > 1 {
      Larger(x + ss[i], ts);
    }
  }

  lemma {:induction false} TestWithout(ts: set<Table>, ss: seq<set<Table>>)
    requires Unites(ts, {}, ss) && exists i :: 0 <= i < |ss| && |ss[i]| > 1
    ensures |ts| > 1
  {
    var i :| 0 <= i < |ss| && |ss[i]| > 1;
    Larger(ss[i], ts);
  }

  lemma {:induction false} TestSets(ts: set<Table>, x: set<Table>, ss: seq<set<Table>>)
    requires Unites(ts, x, ss)
    ensures (|x| > 1 || exists i :: 0 <= i < |ss| && |x + ss[i]| > 1) <==>
      |ts| > 1 && (x == {} ==> exists i :: 0 <= i < |ss| && |ss[i]| > 1)
  {
    if x == {} {
      assert forall i :: 0 <= i < |ss| ==> x + ss[i] == ss[i];
      hide Unites;
      if i :| 0 <= i < |ss| && |ss[i]| > 1 {
        TestWithout(ts, ss);
      }
    } else {
      hide Unites;
      TestWithTables(ts, x, ss);
    }
  }

  function TablesOfAll(es: seq<Expr>): (ss: seq<set<Table>>)
    ensures |ss| == |es| && forall i :: 0 <= i < |es| ==> ss[i] == Tables(es[i])
  {
    seq(|es|, i requires 0 <= i < |es| => Tables(es[i]))
  }

  lemma {:induction false} KidsUnite(p: Expr, x: Expr, others: seq<Expr>)
    requires Kids(p) == [x] + others && !p.Col?
    ensures Unites(Tables(p), Tables(x), TablesOfAll(others))
  {
    TablesOfKids(p);
    assert forall k :: k in Kids(p) <==> k == x || k in others;
    hide Kids;
    hide Tables;
    var ss := TablesOfAll(others);
    hide TablesOfAll;
    forall t ensures t in Tables(p) <==> t in Tables(x) || exists i :: 0 <= i < |ss| && t in ss[i] {
      if k :| k in others && t in Tables(k) {
        var i :| 0 <= i < |others| && others[i] == k;
        assert t in ss[i];
      }
      if i :| 0 <= i < |ss| && t in ss[i] {
        assert others[i] in Kids(p) && t in Tables(others[i]);
      }
    }
  }

  lemma {:induction false} LargeKid(p: Expr, x: Expr, others: seq<Expr>)
    requires Kids(p) == [x] + others && Tables(x) == {}
    ensures (exists k :: k in Kids(p) && |Tables(k)| > 1) <==>
      exists i :: 0 <= i < |others| && |TablesOfAll(others)[i]| > 1
  {
    hide Kids;
    assert forall k :: k in Kids(p) <==> k == x || k in others;
    var ss := TablesOfAll(others);
    assert forall i :: 0 <= i < |others| ==> ss[i] == Tables(others[i]);
    hide TablesOfAll;
    hide Tables;
    if k :| k in others && |Tables(k)| > 1 {
      var i :| 0 <= i < |others| && others[i] == k;
      assert |ss[i]| > 1;
    }
  }

  /** A test of an operand against others. */
  lemma {:induction false} TestJoins(p: Expr, x: Expr, others: seq<Expr>)
    requires Kids(p) == [x] + others && (p.Between? || p.In?) && p.operand == x
    ensures JoinsTables(p) <==>
      |Tables(x)| > 1 || exists i :: 0 <= i < |others| && |Tables(x) + TablesOfAll(others)[i]| > 1
  {
    KidsUnite(p, x, others);
    TestSets(Tables(p), Tables(x), TablesOfAll(others));
    if Tables(x) == {} {
      LargeKid(p, x, others);
    }
    hide Tables;
    hide Kids;
    hide Unites;
    hide TablesOfAll;
  }

  lemma {:induction false} Larger(a: set<Table>, b: set<Table>)
    requires a <= b
    ensures |a| <= |b|
  {
    assert b == a + (b - a);
  }

  lemma {:induction false} BetweenJoins(p: Expr)
    requires p.Between?
    ensures IsJoin(p) <==> JoinsTables(p)
  {
    var others := [p.lower, p.upper];
    assert Kids(p) == [p.operand] + others;
    TestJoins(p, p.operand, others);
    hide JoinsTables;
    hide Tables;
    assert TablesOfAll(others)[0] == Tables(p.lower) && TablesOfAll(others)[1] == Tables(p.upper);
    hide TablesOfAll;
  }

  lemma {:induction false} InJoins(p: Expr)
    requires p.In?
    ensures IsJoin(p) <==> JoinsTables(p)
  {
    assert Kids(p) == [p.operand] + p.values;
    TestJoins(p, p.operand, p.values);
    hide JoinsTables;
    hide Tables;
    var ss := TablesOfAll(p.values);
    hide TablesOfAll;
    assert forall i :: 0 <= i < |ss| ==> ss[i] == Tables(p.values[i]);
  }

  lemma {:induction false} BaseIsJoin(p: Expr)
    requires IsPredicate(p) && !IsCompound(p)
    ensures IsJoin(p) <==> JoinsTables(p)
  {
    hide Tables;
    match p
    case Cmp(_, _, _) =>
      ComparisonJoins(p);
    case Between(_, _, _) =>
      BetweenJoins(p);
    case In(_, _, _) =>
      InJoins(p);
    case Unary(x, _) =>
      SameTables(p, x);
    case _ =>
  }

  lemma {:induction false} SameTables(p: Expr, x: Expr)
    requires !p.Col? && Kids(p) == [x]
    ensures Tables(p) == Tables(x)
  {
    TablesOfKids(p);
    assert x in Kids(p);
  }

  /** A predicate is a join iff one of its base predicates, below any AND, OR and NOT, joins tables. */
  lemma {:induction false} IsJoinExactly(p: Expr)
    requires IsPredicate(p)
    ensures IsJoin(p) <==> JoinsSomewhere(p)
  {
    if IsCompound(p) {
      BasePartsAre(p);
      var ks := Kids(p);
      assert forall k :: k in ks ==> IsPredicate(k);
      forall k | k in ks ensures IsJoin(k) <==> JoinsSomewhere(k) {
        IsJoinExactly(k);
      }
      assert IsJoin(p) <==> exists k :: k in ks && IsJoin(k);
      hide IsJoin;
      hide BaseParts;
      hide JoinsTables;
      PartOfKid(ks);
    } else {
      assert BaseParts(p) == [p];
      BaseIsJoin(p);
    }
  }

  lemma {:induction false} PartOfKid(ks: seq<Expr>)
    ensures forall b :: b in AllBaseParts(ks) <==> exists k :: k in ks && b in BaseParts(k)
  {
    hide BaseParts;
    if ks != [] {
      var front, last := ks[..|ks| - 1], ks[|ks| - 1];
      PartOfKid(front);
      assert ks == front + [last];
      assert AllBaseParts(ks) == AllBaseParts(front) + BaseParts(last);
      hide AllBaseParts;
      assert forall k :: k in ks <==> k in front || k == last;
    }
  }

  lemma {:induction false} PartBelow(p: Expr, b: Expr)
    requires IsPredicate(p) && b in BaseParts(p)
    ensures Tables(b) <= Tables(p)
  {
    hide Tables;
    if IsCompound(p) {
      BasePartsAre(p);
      var ks := Kids(p);
      assert forall k :: k in ks ==> IsPredicate(k);
      PartOfKid(ks);
      hide BaseParts;
      var k :| k in ks && b in BaseParts(k);
      PartBelow(k, b);
      KidColumns(p, k);
    }
  }

  /** A predicate over one table or none is no join. */
  lemma {:induction false} OneTableNoJoin(p: Expr)
    requires IsPredicate(p) && |Tables(p)| <= 1
    ensures !IsJoin(p)
  {
    IsJoinExactly(p);
    hide IsJoin;
    hide BaseParts;
    hide Tables;
    if b :| b in BaseParts(p) && JoinsTables(b) {
      PartBelow(p, b);
      Larger(Tables(b), Tables(p));
    }
  }
}
