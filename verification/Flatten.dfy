/** Moving nested conjunctions to the top. */
module Flatten {
  import opened Sql

  /** `r` is the conjunction of the distinct conjuncts of `p`, in any order; a single one stands alone. */
  ghost predicate IsFlattening(p: Expr, r: Expr) {
    && IsPredicate(r)
    && Distinct(TopConjuncts(r))
    && forall c :: c in TopConjuncts(r) <==> c in Conjuncts(p)
  }

  /** A list of the elements of a set, in any order. */
  method ListOfSet(es: set<Expr>) returns (list: seq<Expr>)
    ensures forall e :: e in list <==> e in es
    ensures Distinct(list)
    ensures |list| == |es|
  {
    list := [];
    var todo := es;
    while todo != {}
      invariant todo <= es && |list| + |todo| == |es|
      invariant forall e :: e in list <==> e in es - todo
      invariant Distinct(list)
    {
      var e :| e in todo;
      assert e !in list;
      todo := todo - {e};
      list := list + [e];
    }
  }

  lemma {:induction false} ConjunctsUpTo(cs: seq<Expr>, i: nat)
    requires i < |cs|
    ensures AllConjuncts(SeqSet(cs[..i + 1])) == AllConjuncts(SeqSet(cs[..i])) + Conjuncts(cs[i])
  {
    hide Conjuncts;
    assert SeqSet(cs[..i + 1]) == SeqSet(cs[..i]) + {cs[i]};
  }

  lemma {:induction false} FlattenedParts(p: Expr, r: Expr)
    requires IsFlattening(p, r)
    ensures SeqSet(TopConjuncts(r)) == Conjuncts(p)
  {
    hide Conjuncts;
  }

  lemma {:induction false} FlatList(p: Expr, list: seq<Expr>)
    requires IsPredicate(p) && forall c :: c in list <==> c in Conjuncts(p)
    requires Distinct(list)
    ensures list != [] && IsFlattening(p, CreateAnd(list).value)
  {
    hide Conjuncts;
    var first := SomeConjunct(p);
    forall c | c in list ensures IsPredicate(c) && !c.And? {
      ConjunctIsFlat(p, c);
    }
    if |list| == 1 {
      assert list == [list[0]];
      assert TopConjuncts(list[0]) == [list[0]];
    } else {
      assert forall i :: 0 <= i < |list| ==> list[i] in list;
    }
  }

  /** `flatten_and_predicate` */
  method FlattenAndPredicate(p: Expr) returns (r: Expr)
    requires IsPredicate(p)
    ensures IsFlattening(p, r)
  {
    if !p.And? {
      return p;
    }
    var cs := p.children;
    var flattened: set<Expr> := {};
    assert cs[..0] == [];
    for i := 0 to |cs|
      invariant flattened == AllConjuncts(SeqSet(cs[..i]))
    {
      ConjunctsUpTo(cs, i);
      if !cs[i].And? {
        flattened := flattened + {cs[i]};
      } else {
        var child := FlattenAndPredicate(cs[i]);
        if child.And? {
          flattened := flattened + SeqSet(child.children);
        } else {
          flattened := flattened + {child};
        }
        FlattenedParts(cs[i], child);
      }
    }
    assert cs[..|cs|] == cs;
    assert flattened == Conjuncts(p);
    var list := ListOfSet(flattened);
    FlatList(p, list);
    r := CreateAnd(list).value;
  }

  /** Flattening keeps the conjuncts, the columns and the truth value on every row; no conjunction is left
      inside the result's conjunction. */
  lemma {:induction false} FlatteningKeeps(w: World, p: Expr, r: Expr, row: Row)
    requires IsFlattening(p, r) && IsPredicate(p)
    ensures Conjuncts(r) == Conjuncts(p)
    ensures forall c :: c in TopConjuncts(r) ==> !c.And?
    ensures Columns(r) == Columns(p)
    ensures Holds(w, r, row) == Holds(w, p, row)
  {
    FlatConjuncts(p, r);
    HoldsByConjuncts(w, p, row);
    HoldsByConjuncts(w, r, row);
    hide *;
    ColumnsByConjuncts(p, r);
    ColumnsByConjuncts(r, p);
  }

  lemma {:induction false} FlatConjuncts(p: Expr, r: Expr)
    requires IsFlattening(p, r) && IsPredicate(p)
    ensures Conjuncts(r) == Conjuncts(p)
    ensures forall c :: c in TopConjuncts(r) ==> !c.And?
  {
    forall c | c in TopConjuncts(r) ensures !c.And? && Conjuncts(c) == {c} {
      ConjunctIsFlat(p, c);
    }
  }

  lemma {:induction false} ColumnsByConjuncts(p: Expr, r: Expr)
    requires Conjuncts(p) <= Conjuncts(r)
    ensures Columns(p) <= Columns(r)
  {
    hide *;
    forall c | c in Columns(p) ensures c in Columns(r) {
      var a := ConjunctOfColumn(p, c);
      ConjunctIsFlat(r, a);
    }
  }

  /** A flat predicate is flattened to itself, up to the order of its parts. */
  lemma {:induction false} FlattenTwice(p: Expr, r: Expr, again: Expr)
    requires IsPredicate(p) && IsFlattening(p, r) && IsFlattening(r, again)
    ensures multiset(TopConjuncts(again)) == multiset(TopConjuncts(r))
    ensures !r.And? ==> again == r
  {
    hide *;
    FlatConjuncts(p, r);
    SameTop(p, r, again);
    if !r.And? {
      OnlyPart(r, again);
    }
  }

  lemma {:induction false} SameTop(p: Expr, r: Expr, again: Expr)
    requires IsFlattening(p, r) && IsFlattening(r, again) && Conjuncts(r) == Conjuncts(p)
    ensures multiset(TopConjuncts(again)) == multiset(TopConjuncts(r))
  {
    hide Conjuncts;
    hide TopConjuncts;
    hide IsPredicate;
    SameElements(TopConjuncts(again), TopConjuncts(r));
  }

  lemma {:induction false} OnlyPart(r: Expr, again: Expr)
    requires !r.And? && IsFlattening(r, again)
    ensures again == r
  {
    assert Conjuncts(r) == {r};
    hide Conjuncts;
    if again.And? {
      TwoParts(again);
    }
  }

  lemma {:induction false} TwoParts(p: Expr)
    requires p.And? && IsPredicate(p) && p.children[0] != p.children[1]
    ensures exists x, y :: x in TopConjuncts(p) && y in TopConjuncts(p) && x != y
  {
    assert p.children[0] in TopConjuncts(p) && p.children[1] in TopConjuncts(p);
  }

  lemma {:induction false} SameElements(es: seq<Expr>, fs: seq<Expr>)
    requires Distinct(es)
    requires Distinct(fs)
    requires forall e :: e in es <==> e in fs
    ensures multiset(es) == multiset(fs)
  {
    DistinctCounts(es);
    DistinctCounts(fs);
  }

  lemma {:induction false} DistinctCounts(es: seq<Expr>)
    requires Distinct(es)
    ensures forall e :: multiset(es)[e] == if e in es then 1 else 0
  {
    if es != [] {
      DistinctCounts(es[1..]);
      assert es == [es[0]] + es[1..];
      assert es[0] !in es[1..];
    }
  }
}
