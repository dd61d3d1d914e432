/** Which WHERE clauses can be split by phase and by table, told by their text. */
module WhereClause {
  import opened Sql
  import opened Phases
  import opened Filters

  /** No operator at or below an expression lacks arguments. */
  ghost predicate HasArguments(e: Expr) {
    forall x :: x in Subexpressions(e) ==> x.Col? || x.Lit? || Kids(x) != []
  }

  lemma {:induction false} TraversableExactly(e: Expr)
    ensures Traversable(e) <==> HasArguments(e)
  {
    assert e in Subexpressions(e);
    forall k | k in Kids(e) ensures Traversable(k) <==> HasArguments(k) {
      TraversableExactly(k);
    }
    if Traversable(e) {
      forall x | x in Subexpressions(e) ensures x.Col? || x.Lit? || Kids(x) != [] {
        if x != e {
          var k :| k in Kids(e) && x in Subexpressions(k);
          var i :| 0 <= i < |Kids(e)| && Kids(e)[i] == k;
          assert Traversable(Kids(e)[i]);
        }
      }
    }
    if HasArguments(e) {
      forall i | 0 <= i < |Kids(e)| ensures Traversable(Kids(e)[i]) {
        assert Kids(e)[i] in Kids(e);
        assert forall x :: x in Subexpressions(Kids(e)[i]) ==> x in Subexpressions(e);
      }
    }
  }

  /** A condition whose phase can be determined: it does not compare literals only. */
  ghost predicate Analysable(p: Expr) { HasArguments(p) && exists k :: k in Kids(p) && !k.Lit? }

  lemma {:induction false} PhaseExactly(p: Expr)
    requires IsPredicate(p)
    ensures DeterminePredicatePhase(p).Some? <==> Analysable(p)
  {
    TraversableExactly(p);
    PredicatePhaseExists(p);
    hide Traversable;
    hide HasArguments;
    hide DeterminePredicatePhase;
    if |Tables(p)| == 1 {
      var t :| t in Tables(p);
      var c :| c in Columns(p) && c.table == t;
      var k :| k in Kids(p) && c in Columns(k);
      assert k.Lit? ==> Columns(k) == {};
    }
  }

  lemma {:induction false} ConjunctionAnalysable(p: Expr)
    requires IsPredicate(p) && p.And? && forall c :: c in p.children ==> Analysable(c)
    ensures Analysable(p)
  {
    assert p.children[0] in Kids(p) && IsPredicate(p.children[0]);
    forall x | x in Subexpressions(p) ensures x.Col? || x.Lit? || Kids(x) != [] {
      if x != p {
        var k :| k in Kids(p) && x in Subexpressions(k);
        assert k in p.children;
      }
    }
  }

  lemma {:induction false} PassSucceeds(p: Expr, phase: Phase)
    ensures FilterEvalPhase(p, phase).Success? <==>
      DeterminePredicatePhase(p).Some? &&
      (p.And? && DeterminePredicatePhase(p).value.Rank() >= phase.Rank() ==>
        forall c :: c in p.children ==> DeterminePredicatePhase(c).Some?)
  {
    hide DeterminePredicatePhase;
    if p.And? {
      assert forall c :: c in p.children ==> exists i :: 0 <= i < |p.children| && p.children[i] == c;
    }
  }

  /** All passes can split a WHERE clause iff all its top-level conjuncts can be analysed. */
  lemma {:induction false} SplitsExactly(p: Expr)
    requires IsPredicate(p)
    ensures FilterEvalPhase(p, BaseTable).Success? <==> forall c :: c in TopConjuncts(p) ==> Analysable(c)
    ensures Splits(p) <==> forall c :: c in TopConjuncts(p) ==> Analysable(c)
  {
    PhaseExactly(p);
    PassSucceeds(p, BaseTable);
    PassSucceeds(p, Join);
    PassSucceeds(p, PostJoin);
    if p.And? {
      forall c | c in p.children ensures DeterminePredicatePhase(c).Some? <==> Analysable(c) {
        PhaseExactly(c);
      }
      if forall c :: c in p.children ==> Analysable(c) {
        ConjunctionAnalysable(p);
      }
    }
    hide Analysable;
    hide DeterminePredicatePhase;
    hide FilterEvalPhase;
  }

  /** The base table pass takes the top-level conjuncts over one table. */
  lemma {:induction false} BaseTakes(p: Expr)
    requires FilterEvalPhase(p, BaseTable).Success?
    ensures forall c :: c in Taken(p, BaseTable) <==> c in TopConjuncts(p) && |Tables(c)| == 1
  {
    assert DeterminePredicatePhase(p).Some?;
    forall c | c in TopConjuncts(p)
      ensures DeterminePredicatePhase(c) == Some(BaseTable) <==> |Tables(c)| == 1
    {
      if p.And? {
        var i :| 0 <= i < |p.children| && p.children[i] == c;
        assert DeterminePredicatePhase(p.children[i]).Some?;
      }
      PredicatePhaseByTables(c);
    }
    hide DeterminePredicatePhase;
    hide Tables;
  }

  /** Every conjunct of a condition over one table mentions it. */
  ghost predicate FiltersMentionTables(p: Expr) {
    forall c :: c in TopConjuncts(p) && |Tables(c)| == 1 ==> MentionTables(Conjuncts(c))
  }

  lemma {:induction false} BaseFiltersMention(p: Expr)
    requires FilterEvalPhase(p, BaseTable).Success? && IsPredicate(p) && Taken(p, BaseTable) != []
    ensures MentionTables(Conjuncts(CreateAnd(Taken(p, BaseTable)).value)) <==> FiltersMentionTables(p)
  {
    BaseTakes(p);
    TakenPart(p, BaseTable);
    hide FilterEvalPhase;
    hide Taken;
    hide Conjuncts;
    hide DeterminePredicatePhase;
    hide Tables;
    MentionedInAll(SeqSet(Taken(p, BaseTable)));
    hide MentionTables;
  }

  lemma {:induction false} MentionedInAll(ps: set<Expr>)
    ensures MentionTables(AllConjuncts(ps)) <==> forall p :: p in ps ==> MentionTables(Conjuncts(p))
  {
    hide Tables;
    hide Conjuncts;
    if MentionTables(AllConjuncts(ps)) {
      forall p, a | p in ps && a in Conjuncts(p) ensures Tables(a) != {} {
        assert a in AllConjuncts(ps);
      }
    }
  }

  /** The join pass takes the top-level comparisons over several tables or none; without tables, none are taken from a
      conjunction over one table. */
  lemma {:induction false} JoinTakes(p: Expr)
    requires Splits(p)
    ensures forall c :: c in Taken(p, Join) <==>
      c in TopConjuncts(p) && c.Cmp? && |Tables(c)| != 1 && !(p.And? && |Tables(p)| == 1)
  {
    TakenIsDue(p, Join);
    forall c | c in TopConjuncts(p)
      ensures DeterminePredicatePhase(c) == Some(Join) <==> c.Cmp? && |Tables(c)| != 1
      ensures p.And? && |Tables(p)| == 1 && |Tables(c)| != 1 ==> Tables(c) == {}
    {
      if p.And? {
        ConjunctHasPhase(p, c);
        KidColumns(p, c);
        SubsetSize(Tables(c), Tables(p));
      } else {
        assert FilterEvalPhase(p, BaseTable).Success?;
      }
      PredicatePhaseByTables(c);
    }
    hide DeterminePredicatePhase;
    hide Taken;
    hide Splits;
    hide FilterEvalPhase;
  }
}
