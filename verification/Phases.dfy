/** When a part of the WHERE clause can be evaluated, and how the clause is split by evaluation phase. */
module Phases {
  import opened Sql

  datatype Phase = BaseTable | Join | PostJoin | PostAggregation {
    function Rank(): nat {
      match this case BaseTable => 1 case Join => 2 case PostJoin => 3 case PostAggregation => 4
    }
  }

  function Latest(ps: seq<Phase>): (m: Phase)
    requires ps != []
    ensures m in ps && forall p :: p in ps ==> p.Rank() <= m.Rank()
  {
    if |ps| == 1 then ps[0]
    else
      var m := Latest(ps[1..]);
      if m.Rank() < ps[0].Rank() then ps[0] else m
  }

  /** The subquery detector folds over the children of every inner node and fails where there are none. */
  predicate Traversable(e: Expr) {
    e.Col? || e.Lit? || (Kids(e) != [] && forall i :: 0 <= i < |Kids(e)| ==> Traversable(Kids(e)[i]))
  }

  /** `_determine_expression_phase`; None stands for the error raised for an operator without arguments. */
  function DetermineExpressionPhase(e: Expr): Option<Phase> {
    if e.Col? || e.Lit? then Some(BaseTable)
    else
      var kids := seq(|Kids(e)|, i requires 0 <= i < |Kids(e)| => DetermineExpressionPhase(Kids(e)[i]));
      if kids == [] || None in kids then None
      else
        var own := if |Tables(e)| > 1 then Join else BaseTable;
        Some(Latest([own, Latest(Values(kids))]))
  }

  function Values(ps: seq<Option<Phase>>): (vs: seq<Phase>)
    requires None !in ps
    ensures |vs| == |ps| && forall i :: 0 <= i < |vs| ==> ps[i] == Some(vs[i])
  {
    if ps == [] then [] else [ps[0].value] + Values(ps[1..])
  }

  function WithoutLiterals(es: seq<Expr>): (r: seq<Expr>)
    ensures forall e :: e in r <==> e in es && !e.Lit?
  {
    if es == [] then [] else (if es[0].Lit? then [] else [es[0]]) + WithoutLiterals(es[1..])
  }

  /** `_determine_predicate_phase` for predicates without subqueries. */
  function DeterminePredicatePhase(p: Expr): Option<Phase> {
    if !Traversable(p) then None
    else if |Tables(p)| == 1 then Some(BaseTable)
    else
      var es := WithoutLiterals(Kids(p));
      var phases := seq(|es|, i requires 0 <= i < |es| => DetermineExpressionPhase(es[i]));
      if phases == [] || None in phases then None
      else
        var latest := Latest(Values(phases));
        if latest.Rank() > Join.Rank() then Some(latest)
        else Some(if p.Cmp? then Join else PostJoin)
  }

  /** The children of a conjunction with exactly the given phase, in order. */
  function ChildrenAt(cs: seq<Expr>, phase: Phase): (r: seq<Expr>)
    ensures forall c :: c in r <==> c in cs && DeterminePredicatePhase(c) == Some(phase)
  {
    if cs == [] then []
    else (if DeterminePredicatePhase(cs[0]) == Some(phase) then [cs[0]] else []) + ChildrenAt(cs[1..], phase)
  }

  /** `_filter_eval_phase`: the part of a predicate to evaluate in a phase, if there is one. */
  function FilterEvalPhase(p: Expr, expected: Phase): Result<Option<Expr>> {
    var phase := DeterminePredicatePhase(p);
    if phase.None? then Failure
    else if phase.value.Rank() < expected.Rank() then Success(None)
    else if p.And? then
      if exists i :: 0 <= i < |p.children| && DeterminePredicatePhase(p.children[i]).None? then Failure
      else
        var parts := ChildrenAt(p.children, expected);
        if parts == [] then Success(None) else Success(Some(CreateAnd(parts).value))
    else Success(if phase.value == expected then Some(p) else None)
  }

  // ----- what the phases depend on -----

  lemma {:induction false} ExpressionPhaseByTables(e: Expr)
    requires DetermineExpressionPhase(e).Some?
    ensures DetermineExpressionPhase(e).value == if |Tables(e)| > 1 then Join else BaseTable
  {
    if e.Col? {
      assert Tables(e) == {e.column.table};
    } else if e.Lit? {
      assert Tables(e) == {};
    } else {
      var kids := seq(|Kids(e)|, i requires 0 <= i < |Kids(e)| => DetermineExpressionPhase(Kids(e)[i]));
      forall i | 0 <= i < |kids|
        ensures kids[i].Some? && (kids[i].value == BaseTable || (kids[i].value == Join && |Tables(e)| > 1))
      {
        assert kids[i] in kids;
        ExpressionPhaseByTables(Kids(e)[i]);
        KidColumns(e, Kids(e)[i]);
        SubsetSize(Tables(Kids(e)[i]), Tables(e));
      }
    }
  }

  lemma {:induction false} SubsetSize<T>(a: set<T>, b: set<T>)
    requires a <= b
    ensures |a| <= |b|
  {
    assert b == a + (b - a);
  }

  /** Without subqueries and aggregates, the phase of a predicate follows from its tables and its form. */
  lemma {:induction false} PredicatePhaseByTables(p: Expr)
    requires DeterminePredicatePhase(p).Some?
    ensures DeterminePredicatePhase(p).value
         == if |Tables(p)| == 1 then BaseTable else if p.Cmp? then Join else PostJoin
  {
    if |Tables(p)| != 1 {
      var es := WithoutLiterals(Kids(p));
      var phases := seq(|es|, i requires 0 <= i < |es| => DetermineExpressionPhase(es[i]));
      forall i | 0 <= i < |phases| ensures phases[i].Some? && phases[i].value.Rank() <= Join.Rank() {
        assert phases[i] in phases;
        ExpressionPhaseByTables(es[i]);
      }
    }
  }

  lemma {:induction false} ExpressionPhaseExists(e: Expr)
    requires Traversable(e)
    ensures DetermineExpressionPhase(e).Some?
  {
    if !e.Col? && !e.Lit? {
      var kids := seq(|Kids(e)|, i requires 0 <= i < |Kids(e)| => DetermineExpressionPhase(Kids(e)[i]));
      forall i | 0 <= i < |kids| ensures kids[i].Some? {
        ExpressionPhaseExists(Kids(e)[i]);
      }
    }
  }

  /** The phase analysis succeeds exactly if no operator is without arguments and the predicate does not
      compare literals only. */
  lemma {:induction false} PredicatePhaseExists(p: Expr)
    ensures DeterminePredicatePhase(p).Some? <==>
            Traversable(p) && (|Tables(p)| == 1 || exists k :: k in Kids(p) && !k.Lit?)
  {
    var es := WithoutLiterals(Kids(p));
    var phases := seq(|es|, i requires 0 <= i < |es| => DetermineExpressionPhase(es[i]));
    if Traversable(p) {
      KidsHavePhases(p);
      forall i | 0 <= i < |es| ensures phases[i].Some? {
        assert es[i] in es;
      }
      if es != [] {
        assert es[0] in es;
      }
    }
    hide DetermineExpressionPhase;
    hide Tables;
  }

  lemma {:induction false} KidsHavePhases(p: Expr)
    requires Traversable(p)
    ensures forall k :: k in Kids(p) ==> DetermineExpressionPhase(k).Some?
  {
    forall k | k in Kids(p) ensures DetermineExpressionPhase(k).Some? {
      var i :| 0 <= i < |Kids(p)| && Kids(p)[i] == k;
      assert Traversable(Kids(p)[i]);
      ExpressionPhaseExists(k);
    }
  }

  // ----- the split of the WHERE clause -----

  /** The parts of a predicate that the pass of a phase takes. */
  function Taken(p: Expr, phase: Phase): seq<Expr> {
    var own := DeterminePredicatePhase(p);
    if own.None? || own.value.Rank() < phase.Rank() then []
    else if p.And? then ChildrenAt(p.children, phase)
    else if own.value == phase then [p]
    else []
  }

  /** All three passes over the WHERE clause succeed in splitting it. */
  predicate Splits(p: Expr) {
    && FilterEvalPhase(p, BaseTable).Success?
    && FilterEvalPhase(p, Join).Success?
    && FilterEvalPhase(p, PostJoin).Success?
  }

  /** A conjunction over one single table has a conjunct that mentions no table at all. */
  predicate LosesConjunct(p: Expr) {
    p.And? && |Tables(p)| == 1 && exists c :: c in p.children && Tables(c) == {}
  }

  lemma {:induction false} FilterEvalPhaseTakes(p: Expr, phase: Phase)
    requires FilterEvalPhase(p, phase).Success?
    ensures FilterEvalPhase(p, phase).value ==
            if Taken(p, phase) == [] then None else Some(CreateAnd(Taken(p, phase)).value)
  {
  }

  lemma {:induction false} CountAt(cs: seq<Expr>, phase: Phase, c: Expr)
    ensures multiset(ChildrenAt(cs, phase))[c]
         == if DeterminePredicatePhase(c) == Some(phase) then multiset(cs)[c] else 0
  {
    if cs != [] {
      assert cs == [cs[0]] + cs[1..];
      CountAt(cs[1..], phase, c);
    }
  }

  ghost function TakenInAll(p: Expr): multiset<Expr> {
    multiset(Taken(p, BaseTable)) + multiset(Taken(p, Join)) + multiset(Taken(p, PostJoin))
  }

  lemma {:induction false} ConjunctionPhase(p: Expr)
    requires p.And? && Splits(p)
    ensures DeterminePredicatePhase(p) == Some(if |Tables(p)| == 1 then BaseTable else PostJoin)
  {
    assert FilterEvalPhase(p, BaseTable).Success?;
    PredicatePhaseByTables(p);
  }

  lemma {:induction false} ConjunctHasPhase(p: Expr, c: Expr)
    requires p.And? && Splits(p) && c in p.children
    ensures DeterminePredicatePhase(c).Some?
  {
    var i :| 0 <= i < |p.children| && p.children[i] == c;
    assert FilterEvalPhase(p, BaseTable).Success?;
    assert DeterminePredicatePhase(p.children[i]).Some?;
  }

  /** Where a conjunction and one of its conjuncts stand. */
  lemma {:induction false} ConjunctPhase(p: Expr, c: Expr)
    requires p.And? && Splits(p) && c in p.children
    ensures DeterminePredicatePhase(p) == Some(if |Tables(p)| == 1 then BaseTable else PostJoin)
    ensures DeterminePredicatePhase(c).Some? && DeterminePredicatePhase(c).value in {BaseTable, Join, PostJoin}
    ensures |Tables(p)| == 1 ==> (DeterminePredicatePhase(c).value == BaseTable <==> Tables(c) != {})
  {
    ConjunctionPhase(p);
    ConjunctHasPhase(p, c);
    hide DeterminePredicatePhase;
    hide Splits;
    PredicatePhaseByTables(c);
    KidColumns(p, c);
    SubsetSize(Tables(c), Tables(p));
    hide Tables;
  }

  lemma {:induction false} TakenAt(p: Expr, phase: Phase, c: Expr)
    requires p.And? && DeterminePredicatePhase(p) in {Some(BaseTable), Some(PostJoin)} && phase != PostAggregation
    ensures multiset(Taken(p, phase))[c] ==
            if (phase == BaseTable || DeterminePredicatePhase(p) == Some(PostJoin))
              && DeterminePredicatePhase(c) == Some(phase)
            then multiset(p.children)[c]
            else 0
  {
    hide DeterminePredicatePhase;
    hide ChildrenAt;
    CountAt(p.children, phase, c);
  }

  lemma {:induction false} TakenCount(p: Expr, c: Expr)
    requires p.And? && Splits(p)
    ensures TakenInAll(p)[c] ==
            if |Tables(p)| == 1 && Tables(c) == {} then 0 else multiset(p.children)[c]
  {
    hide DeterminePredicatePhase;
    hide Taken;
    hide Splits;
    hide Tables;
    ConjunctionPhase(p);
    TakenAt(p, BaseTable, c);
    TakenAt(p, Join, c);
    TakenAt(p, PostJoin, c);
    if c in p.children {
      ConjunctPhase(p, c);
    } else {
      assert multiset(p.children)[c] == 0;
    }
  }

  lemma {:induction false} CountsDecide(p: Expr, taken: multiset<Expr>)
    requires p.And?
    requires forall c :: taken[c] ==
               if |Tables(p)| == 1 && Tables(c) == {} then 0 else multiset(p.children)[c]
    ensures taken == multiset(p.children) <==> !LosesConjunct(p)
    ensures forall c :: taken[c] ==
              if LosesConjunct(p) && Tables(c) == {} then 0 else multiset(p.children)[c]
  {
    forall c ensures multiset(p.children)[c] > 0 <==> c in p.children {}
    if LosesConjunct(p) {
      var c :| c in p.children && Tables(c) == {};
      assert taken[c] != multiset(p.children)[c];
    }
  }

  /** The three passes take every conjunct exactly once, unless a conjunction over one table has a
      conjunct without tables: that conjunct is then taken by no pass. */
  lemma {:induction false} PassesPartition(p: Expr)
    requires Splits(p)
    ensures TakenInAll(p) == multiset(TopConjuncts(p)) <==> !LosesConjunct(p)
    ensures forall c :: TakenInAll(p)[c] ==
              if LosesConjunct(p) && Tables(c) == {} then 0 else multiset(TopConjuncts(p))[c]
  {
    if p.And? {
      forall c
        ensures TakenInAll(p)[c] ==
                if |Tables(p)| == 1 && Tables(c) == {} then 0 else multiset(p.children)[c]
      {
        TakenCount(p, c);
      }
      CountsDecide(p, TakenInAll(p));
    } else {
      PredicatePhaseByTables(p);
      assert TakenInAll(p) == multiset([p]);
    }
  }

  /** A conjunction is never due before one of its conjuncts, with the same exception. */
  lemma {:induction false} ConjunctionIsLast(p: Expr)
    requires p.And? && Splits(p)
    ensures (forall c :: c in p.children ==>
               DeterminePredicatePhase(c).Some? &&
               DeterminePredicatePhase(c).value.Rank() <= DeterminePredicatePhase(p).value.Rank())
       <==> !LosesConjunct(p)
  {
    assert DeterminePredicatePhase(p).Some?;
    hide DeterminePredicatePhase;
    hide Splits;
    hide Tables;
    forall c | c in p.children
      ensures DeterminePredicatePhase(c).Some?
      ensures DeterminePredicatePhase(c).value.Rank() <= DeterminePredicatePhase(p).value.Rank()
         <==> !(|Tables(p)| == 1 && Tables(c) == {})
    {
      ConjunctPhase(p, c);
    }
  }

  /** The part of a predicate that a pass takes: a predicate made of exactly the taken conjuncts. */
  lemma {:induction false} TakenPart(p: Expr, phase: Phase)
    requires IsPredicate(p) && Taken(p, phase) != []
    ensures forall c :: c in Taken(p, phase) ==>
      IsPredicate(c) && DeterminePredicatePhase(c) == Some(phase) && Columns(c) <= Columns(p)
    ensures var part := CreateAnd(Taken(p, phase)).value;
      && IsPredicate(part) && Columns(part) <= Columns(p) && Tables(part) <= Tables(p)
      && Conjuncts(part) == AllConjuncts(set c | c in Taken(p, phase))
  {
    var cs := Taken(p, phase);
    forall c | c in cs
      ensures IsPredicate(c) && DeterminePredicatePhase(c) == Some(phase) && Columns(c) <= Columns(p)
    {
      if p.And? {
        assert c in p.children;
        KidColumns(p, c);
      }
    }
    CreateAndParts(cs);
  }

  /** The conjuncts that are due in a phase. Without tables, they are not due in a conjunction over one table. */
  function Due(p: Expr, phase: Phase): set<Expr> {
    set c | c in TopConjuncts(p) && DeterminePredicatePhase(c) == Some(phase) &&
            !(p.And? && |Tables(p)| == 1 && Tables(c) == {})
  }

  lemma {:induction false} TakenIsDue(p: Expr, phase: Phase)
    requires Splits(p) && phase != PostAggregation
    ensures forall c :: c in Taken(p, phase) <==> c in Due(p, phase)
  {
    forall c ensures c in Taken(p, phase) <==> c in Due(p, phase) {
      if p.And? {
        ConjunctionPhase(p);
        TakenAt(p, phase, c);
        if c in p.children {
          ConjunctPhase(p, c);
        }
        assert c in Taken(p, phase) <==> multiset(Taken(p, phase))[c] > 0;
        assert c in p.children <==> multiset(p.children)[c] > 0;
        hide DeterminePredicatePhase;
        hide Taken;
        hide Tables;
        hide Splits;
      }
    }
  }

  /** A pass yields the conjunction of exactly the conjuncts that are due; nothing if there are none. */
  lemma {:induction false} PassYields(p: Expr, phase: Phase)
    requires IsPredicate(p) && Splits(p) && phase != PostAggregation
    ensures FilterEvalPhase(p, phase).Success?
    ensures FilterEvalPhase(p, phase).value.None? <==> Due(p, phase) == {}
    ensures FilterEvalPhase(p, phase).value.Some? ==>
      Conjuncts(FilterEvalPhase(p, phase).value.value) == AllConjuncts(Due(p, phase))
  {
    hide *;
    PassSplits(p, phase);
    FilterEvalPhaseTakes(p, phase);
    TakenIsDue(p, phase);
    if Taken(p, phase) == [] {
      assert Due(p, phase) == {};
    } else {
      TakenPart(p, phase);
      assert Taken(p, phase)[0] in Due(p, phase);
      assert (set c | c in Taken(p, phase)) == Due(p, phase);
    }
  }

  lemma {:induction false} PassSplits(p: Expr, phase: Phase)
    requires Splits(p) && phase != PostAggregation
    ensures FilterEvalPhase(p, phase).Success?
  {
    hide FilterEvalPhase;
  }
}
