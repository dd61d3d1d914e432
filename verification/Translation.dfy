/** What a translated plan produces: the rows of the FROM product on which the WHERE clause is True. */
module Translation {
  import opened Sql
  import opened Query
  import opened Algebra
  import opened Phases
  import opened Supply
  import opened Filters
  import opened JoinGraph
  import opened Translator

  ghost predicate WhereHolds(w: World, q: SelectQuery, r: Row) {
    q.where.Some? ==> Holds(w, q.where.value, r) == True
  }

  /** The tuple a plan returns for a row: its SELECT targets, or everything the plan provides for SELECT * . */
  ghost function ResultTuple(w: World, q: SelectQuery, n: Node, r: Row): Tuple {
    if q.star then Restrict(w, r, Provided(n)) else map e | e in q.targets :: Eval(w, e, r)
  }

  /** `t` is the result of a row of the FROM product that satisfies the given conjuncts. */
  ghost predicate Selects(w: World, db: Database, q: SelectQuery, n: Node, cs: set<Expr>, t: Tuple) {
    exists r :: IsRow(db, FromTables(q.from), r) && Satisfies(w, cs, r) && t == ResultTuple(w, q, n, r)
  }

  /** `t` is in the answer of the query: the result of a row of the FROM product on which WHERE is True. */
  ghost predicate Answers(w: World, db: Database, q: SelectQuery, n: Node, t: Tuple) {
    exists r :: IsRow(db, FromTables(q.from), r) && WhereHolds(w, q, r) && t == ResultTuple(w, q, n, r)
  }

  lemma {:induction false} OutputIsEval(w: World, targets: seq<Expr>, provided: set<Expr>, r: Row)
    requires forall e :: e in targets ==> CollectAll(e) <= provided
    ensures Output(targets, Restrict(w, r, provided)) == map e | e in targets :: Eval(w, e, r)
  {
    forall e | e in targets ensures Lookup(Restrict(w, r, provided), e) == Eval(w, e, r) {
      assert NeedsMapping(e) ==> e in CollectAll(e);
    }
  }

  /** Conditions and their conjuncts select the same rows. */
  lemma {:induction false} SatisfiesConjuncts(w: World, ps: set<Expr>, r: Row)
    ensures Satisfies(w, ps, r) <==> Satisfies(w, AllConjuncts(ps), r)
  {
    forall p | p in ps ensures Holds(w, p, r) == HoldsAll(w, Conjuncts(p), r) {
      HoldsByConjuncts(w, p, r);
    }
    HoldsAllConjuncts(w, ps, r);
    HoldsAllByCases(w, ps, r);
    HoldsAllByCases(w, AllConjuncts(ps), r);
  }

  /** A translated plan produces exactly the results of the rows that satisfy the conjuncts it kept. */
  lemma {:induction false} PlanSelectsKept(w: World, db: Database, q: SelectQuery, n: Node, t: Tuple)
    requires IsTranslation(q, n)
    ensures t in Produce(w, db, n) <==> Selects(w, db, q, n, Kept(q), t)
  {
    var body := if q.star then n else n.input;
    if t in Produce(w, db, n) {
      var t0 :| t0 in Produce(w, db, body) && t == if q.star then t0 else Output(q.targets, t0);
      var r := TupleHasRow(w, db, body, t0);
      SatisfiesConjuncts(w, Conditions(n), r);
      BodyResult(w, q, n, r);
      assert t == ResultTuple(w, q, n, r);
    }
    if Selects(w, db, q, n, Kept(q), t) {
      var r :| IsRow(db, FromTables(q.from), r) && Satisfies(w, Kept(q), r) && t == ResultTuple(w, q, n, r);
      SatisfiesConjuncts(w, Conditions(n), r);
      RowIsProduced(w, db, body, r);
      BodyResult(w, q, n, r);
    }
  }

  lemma {:induction false} BodyResult(w: World, q: SelectQuery, n: Node, r: Row)
    requires IsTranslation(q, n)
    ensures ResultTuple(w, q, n, r) ==
            if q.star then Restrict(w, r, Provided(n)) else Output(q.targets, Restrict(w, r, Provided(n.input)))
  {
    if !q.star {
      OutputIsEval(w, q.targets, Provided(n.input), r);
    }
  }

  // ----- kept and lost conjuncts -----

  /** The conjuncts that no pass takes. */
  function Lost(q: SelectQuery): set<Expr> {
    match q.where
    case None => {}
    case Some(p) => if LosesConjunct(p) then set c | c in TopConjuncts(p) && Tables(c) == {} else {}
  }

  function TakenSet(p: Expr): set<Expr> {
    SeqSet(Taken(p, BaseTable)) + SeqSet(Taken(p, Join)) + SeqSet(Taken(p, PostJoin))
  }

  lemma {:induction false} TakenAndLost(q: SelectQuery, p: Expr)
    requires q.where == Some(p) && Splits(p)
    ensures TakenSet(p) + Lost(q) == SeqSet(TopConjuncts(p))
    ensures LosesConjunct(p) ==> forall c :: c in TakenSet(p) ==> Tables(c) != {}
  {
    hide Taken;
    hide Splits;
    hide Tables;
    hide TakenInAll;
    hide TakenSet;
    PassesPartition(p);
    forall c
      ensures c in TakenSet(p) + Lost(q) <==> c in SeqSet(TopConjuncts(p))
      ensures LosesConjunct(p) && c in TakenSet(p) ==> Tables(c) != {}
    {
      TakenMember(p, c);
      assert c in TopConjuncts(p) <==> multiset(TopConjuncts(p))[c] > 0;
    }
  }

  lemma {:induction false} TakenMember(p: Expr, c: Expr)
    ensures c in TakenSet(p) <==> TakenInAll(p)[c] > 0
  {
    hide Taken;
  }

  lemma {:induction false} KeptAndLost(q: SelectQuery)
    requires q.where.Some? ==> Splits(q.where.value)
    ensures q.where.Some? ==> Kept(q) + AllConjuncts(Lost(q)) == Conjuncts(q.where.value)
    ensures Lost(q) == {} <==> !(q.where.Some? && LosesConjunct(q.where.value))
  {
    if q.where.Some? {
      var p := q.where.value;
      TakenAndLost(q, p);
      AllConjunctsUnion(TakenSet(p), Lost(q));
      TopConjunctsCover(p);
    }
  }

  lemma {:induction false} TopConjunctsCover(p: Expr)
    ensures AllConjuncts(SeqSet(TopConjuncts(p))) == Conjuncts(p)
  {
    assert p.And? ==> SeqSet(TopConjuncts(p)) == SeqSet(p.children);
    if !p.And? {
      assert SeqSet([p]) == {p};
    }
  }

  /** WHERE is True where the kept and the lost conjuncts are. */
  lemma {:induction false} WhereIsKeptAndLost(w: World, q: SelectQuery, r: Row)
    requires q.where.Some? ==> Splits(q.where.value)
    ensures WhereHolds(w, q, r) <==> Satisfies(w, Kept(q), r) && Satisfies(w, Lost(q), r)
  {
    KeptAndLost(q);
    SatisfiesConjuncts(w, Lost(q), r);
    if q.where.Some? {
      TrueByConjuncts(w, q.where.value, r);
    }
  }

  // ----- main results -----

  /** Whenever the translation succeeds and loses no conjunct, the plan produces the answer of the query:
      on every database, and whatever order its joins and cross products were built in. */
  lemma {:induction false} TranslationIsCorrect(w: World, db: Database, q: SelectQuery, n: Node, t: Tuple)
    requires IsTranslation(q, n)
    requires !(q.where.Some? && LosesConjunct(q.where.value))
    ensures t in Produce(w, db, n) <==> Answers(w, db, q, n, t)
  {
    PlanSelectsKept(w, db, q, n, t);
    KeptAndLost(q);
    forall r: Row ensures WhereHolds(w, q, r) <==> Satisfies(w, Kept(q), r) {
      WhereIsKeptAndLost(w, q, r);
    }
  }

  /** A conjunct without tables has the same truth value on every row. */
  lemma {:induction false} LostIsConstant(w: World, q: SelectQuery, r1: Row, r2: Row)
    ensures Satisfies(w, Lost(q), r1) <==> Satisfies(w, Lost(q), r2)
  {
    forall c | c in Lost(q) ensures Holds(w, c, r1) == Holds(w, c, r2) {
      EvalOnTables(w, c, r1, r2);
    }
  }

  /** The exact condition for a successful translation to be correct on a database: the lost conjuncts are
      True, or no row satisfies the kept ones. */
  lemma {:induction false} CorrectExactlyIf(w: World, db: Database, q: SelectQuery, n: Node)
    requires IsTranslation(q, n)
    ensures (forall t :: t in Produce(w, db, n) <==> Answers(w, db, q, n, t))
       <==> (Satisfies(w, Lost(q), map[]) ||
             !exists r :: IsRow(db, FromTables(q.from), r) && Satisfies(w, Kept(q), r))
  {
    forall r: Row
      ensures WhereHolds(w, q, r) <==> Satisfies(w, Kept(q), r) && Satisfies(w, Lost(q), map[])
    {
      WhereIsKeptAndLost(w, q, r);
      LostIsConstant(w, q, r, map[]);
    }
    forall t: Tuple ensures t in Produce(w, db, n) <==> Selects(w, db, q, n, Kept(q), t) {
      PlanSelectsKept(w, db, q, n, t);
    }
    if !Satisfies(w, Lost(q), map[]) && exists r :: IsRow(db, FromTables(q.from), r) && Satisfies(w, Kept(q), r) {
      var r :| IsRow(db, FromTables(q.from), r) && Satisfies(w, Kept(q), r);
      var t := ResultTuple(w, q, n, r);
      assert Selects(w, db, q, n, Kept(q), t);
      assert t in Produce(w, db, n) && !Answers(w, db, q, n, t);
    }
  }

  /** A plan and everything below it. */
  function Subplans(n: Node): set<Node> {
    {n} + match n
          case Relation(_, _) => {}
          case Selection(input, _) => Subplans(input)
          case CrossProduct(l, r) => Subplans(l) + Subplans(r)
          case ThetaJoin(l, r, _) => Subplans(l) + Subplans(r)
          case Map(input, _) => Subplans(input)
          case Projection(input, _) => Subplans(input)
  }

  lemma {:induction false} SubplanIsWellFormed(n: Node, m: Node)
    requires WellFormed(n) && m in Subplans(n)
    ensures WellFormed(m)
  {
    if m != n {
      match n
      case Selection(input, _) => SubplanIsWellFormed(input, m);
      case CrossProduct(l, r) => SubplanIsWellFormed(if m in Subplans(l) then l else r, m);
      case ThetaJoin(l, r, _) => SubplanIsWellFormed(if m in Subplans(l) then l else r, m);
      case Map(input, _) => SubplanIsWellFormed(input, m);
    }
  }

  /** Every selection and every join of a translated plan finds all expressions its condition needs
      among those that its inputs provide. */
  lemma {:induction false} ConditionsAreSupplied(q: SelectQuery, n: Node, m: Node)
    requires IsTranslation(q, n) && m in Subplans(n)
    ensures m.Selection? ==> CollectKids(m.condition) <= Provided(m.input)
    ensures m.ThetaJoin? ==> CollectKids(m.condition) <= Provided(m.left) + Provided(m.right)
  {
    if m != n || q.star {
      SubplanIsWellFormed(if q.star then n else n.input, m);
    }
  }

  // ----- a WHERE clause that loses a conjunct -----

  const R := Table("R", "")
  const A := Column("a", R)
  const COUNTED := Cmp(Equal, Col(A), Lit(Num(5)))
  const SUM := App(Math("+"), [Lit(Num(1)), Lit(Num(1))])
  const ABSURD := Cmp(Equal, SUM, Lit(Num(3)))

  /** SELECT * FROM R WHERE R.a = 5 AND 1 + 1 = 3 */
  const LOSING := SelectQuery(true, [], [Leaf(DirectTable, R)], Some(And([COUNTED, ABSURD])))

  /** Its translation: a scan of R and the selection R.a = 5. */
  const LOSING_PLAN := Selection(Relation(R, {A}), COUNTED)

  lemma {:induction false} ExampleTables()
    ensures Columns(COUNTED) == {A} && Tables(COUNTED) == {R}
    ensures Columns(ABSURD) == {} && Tables(ABSURD) == {}
    ensures Columns(And([COUNTED, ABSURD])) == {A} && Tables(And([COUNTED, ABSURD])) == {R}
  {
    OwnColumn(A);
    PairColumns(SUM, Lit(Num(1)), Lit(Num(1)));
    PairColumns(COUNTED, Col(A), Lit(Num(5)));
    PairColumns(ABSURD, SUM, Lit(Num(3)));
    PairColumns(And([COUNTED, ABSURD]), COUNTED, ABSURD);
  }

  lemma {:induction false} PairColumns(e: Expr, l: Expr, r: Expr)
    requires Kids(e) == [l, r]
    ensures Columns(e) == Columns(l) + Columns(r)
    ensures l.Lit? ==> Columns(l) == {}
    ensures r.Lit? ==> Columns(r) == {}
  {
    assert l in Kids(e) && r in Kids(e);
  }

  lemma {:induction false} ExamplePhases()
    ensures DeterminePredicatePhase(COUNTED) == Some(BaseTable)
    ensures DeterminePredicatePhase(ABSURD) == Some(Join)
    ensures DeterminePredicatePhase(And([COUNTED, ABSURD])) == Some(BaseTable)
  {
    hide DeterminePredicatePhase;
    hide DetermineExpressionPhase;
    hide Traversable;
    hide Tables;
    hide Columns;
    ExampleTables();
    LiteralsTraversable(SUM, Lit(Num(1)), Lit(Num(1)));
    PairPhase(COUNTED, Col(A), Lit(Num(5)));
    PairPhase(ABSURD, SUM, Lit(Num(3)));
    PairPhase(And([COUNTED, ABSURD]), COUNTED, ABSURD);
  }

  lemma {:induction false} LiteralsTraversable(e: Expr, l: Expr, r: Expr)
    requires Kids(e) == [l, r] && l.Lit? && r.Lit?
    ensures Traversable(e)
  {
  }

  lemma {:induction false} PairPhase(e: Expr, l: Expr, r: Expr)
    requires Kids(e) == [l, r] && !l.Lit?
    requires l.Col? || Traversable(l)
    requires r.Col? || r.Lit? || Traversable(r)
    ensures DeterminePredicatePhase(e)
         == Some(if |Tables(e)| == 1 then BaseTable else if e.Cmp? then Join else PostJoin)
    ensures Traversable(e)
  {
    assert l in Kids(e);
    PredicatePhaseExists(e);
    PredicatePhaseByTables(e);
  }

  lemma {:induction false} TakenOfPair(p: Expr, c: Expr, d: Expr)
    requires p == And([c, d]) && DeterminePredicatePhase(p) == Some(BaseTable)
    requires DeterminePredicatePhase(c) == Some(BaseTable) && DeterminePredicatePhase(d) == Some(Join)
    ensures Splits(p) && Taken(p, BaseTable) == [c] && Taken(p, Join) == [] && Taken(p, PostJoin) == []
  {
    hide DeterminePredicatePhase;
    var cs := p.children;
    assert cs[0] == c && cs[1..] == [d] && [d][1..] == [];
    assert forall i :: 0 <= i < |cs| ==> DeterminePredicatePhase(cs[i]).Some?;
    assert ChildrenAt([d], BaseTable) == [];
    assert ChildrenAt(cs, BaseTable) == [c];
  }

  lemma {:induction false} ExampleKept()
    ensures Splits(And([COUNTED, ABSURD])) && LosesConjunct(And([COUNTED, ABSURD]))
    ensures Kept(LOSING) == {COUNTED} && Lost(LOSING) == {ABSURD} && JoinsOf(LOSING) == {}
  {
    hide DeterminePredicatePhase;
    hide Tables;
    hide Columns;
    hide Splits;
    hide Taken;
    ExampleTables();
    ExamplePhases();
    KeptOfPair(LOSING, And([COUNTED, ABSURD]), COUNTED, ABSURD);
  }

  lemma {:induction false} KeptOfPair(q: SelectQuery, p: Expr, c: Expr, d: Expr)
    requires q.where == Some(p) && p == And([c, d]) && DeterminePredicatePhase(p) == Some(BaseTable)
    requires DeterminePredicatePhase(c) == Some(BaseTable) && DeterminePredicatePhase(d) == Some(Join)
    requires |Tables(p)| == 1 && Tables(c) != {} && Tables(d) == {} && !c.And?
    ensures Splits(p) && LosesConjunct(p)
    ensures Kept(q) == {c} && Lost(q) == {d} && JoinsOf(q) == {}
  {
    hide DeterminePredicatePhase;
    hide Tables;
    hide Columns;
    hide Splits;
    TakenOfPair(p, c, d);
    assert p.children[0] == c && p.children[1] == d;
    assert d in p.children;
    assert SeqSet([c]) == {c};
    assert SeqSet(Taken(p, BaseTable)) + SeqSet(Taken(p, Join)) + SeqSet(Taken(p, PostJoin)) == {c};
    assert Conjuncts(c) == {c};
    assert AllConjuncts({c}) == {c};
  }

  /** The plan that drops 1 + 1 = 3 is what translation promises of this query. */
  lemma {:induction false} LosingPlanTranslates()
    ensures WellScoped(LOSING) && IsTranslation(LOSING, LOSING_PLAN)
  {
    hide DeterminePredicatePhase;
    hide Tables;
    hide Columns;
    hide Splits;
    hide Taken;
    ExampleTables();
    ExampleKept();
    SelectionTranslates(LOSING, R, A, COUNTED);
  }

  /** A query over one table that keeps a single filter translates to a selection on the scan. */
  lemma {:induction false} SelectionTranslates(q: SelectQuery, t: Table, a: Column, c: Expr)
    requires q.star && q.targets == [] && q.from == [Leaf(DirectTable, t)] && a.table == t
    requires q.where.Some? && IsPredicate(q.where.value) && Splits(q.where.value) && Columns(q.where.value) == {a}
    requires Kept(q) == {c} && JoinsOf(q) == {} && Tables(c) == {t} && Conjuncts(c) == {c}
    requires c.Cmp? && c.lhs == Col(a) && c.rhs.Lit?
    ensures WellScoped(q) && IsTranslation(q, Selection(Relation(t, {a}), c))
  {
    hide Tables;
    hide Columns;
    hide Splits;
    hide Taken;
    hide Kept;
    hide JoinsOf;
    var n := Selection(Relation(t, {a}), c);
    FromOneTable(t);
    assert QueryColumns(q) == {a};
    LiteralFilterNeeds(c);
    assert Provided(Relation(t, {a})) == {Col(a)};
    assert AllConjuncts({c}) == {c};
    assert Components({}, {t}) == {Component({}, {t}, t)};
    assert Applicable(c, {t}, {Col(a)});
    assert WellFormed(Relation(t, {a})) && NodeTables(Relation(t, {a})) == {t};
    assert WellFormed(n);
    assert Conditions(n) == {c};
    assert HasColumns(n, {a});
    assert CrossProducts(n) == |Components({}, {t})| - 1;
  }

  lemma {:induction false} LiteralFilterNeeds(c: Expr)
    requires c.Cmp? && c.lhs.Col? && c.rhs.Lit?
    ensures CollectKids(c) == {c.lhs}
  {
    assert Kids(c) == [c.lhs, c.rhs] && Kids(c.lhs) == [] && Kids(c.rhs) == [];
    assert CollectAll(c.lhs) == {c.lhs} && CollectAll(c.rhs) == {};
  }

  /** On a database with R.a = 5 the plan returns a row, whereas the query has no answer. */
  lemma {:induction false} LosesTableFreeConjunct() returns (w: World, db: Database, t: Tuple)
    ensures t in Produce(w, db, LOSING_PLAN) && !Answers(w, db, LOSING, LOSING_PLAN, t)
  {
    hide Tables;
    hide Columns;
    hide IsTranslation;
    hide Kept;
    hide Lost;
    hide Holds;
    hide Produce;
    hide ResultTuple;
    hide Splits;
    hide FromTables;
    w := World((fn, vs) => Num(2), (a, b) => true, (name, a, b) => Unknown);
    var row: map<string, Value> := map["a" := Num(5)];
    db := map[R := {row}];
    var r: Row := map[R := row];
    LosingPlanTranslates();
    ExampleKept();
    ExampleVerdicts(w, r);
    FromOneTable(R);
    t := ResultTuple(w, LOSING, LOSING_PLAN, r);
    assert Selects(w, db, LOSING, LOSING_PLAN, Kept(LOSING), t);
    PlanSelectsKept(w, db, LOSING, LOSING_PLAN, t);
    forall r': Row ensures !WhereHolds(w, LOSING, r') {
      WhereIsKeptAndLost(w, LOSING, r');
    }
    assert !Answers(w, db, LOSING, LOSING_PLAN, t);
  }

  lemma {:induction false} FromOneTable(t: Table)
    ensures FromTables([Leaf(DirectTable, t)]) == {t}
  {
    FromTablesAppend([], Leaf(DirectTable, t));
    assert [] + [Leaf(DirectTable, t)] == [Leaf(DirectTable, t)];
  }

  lemma {:induction false} ExampleVerdicts(w: World, r: Row)
    requires (forall fn, vs :: w.apply(fn, vs) == Num(2)) && ColumnValue(r, A) == Num(5)
    ensures Holds(w, COUNTED, r) == True && forall r': Row :: Holds(w, ABSURD, r') == False
  {
    assert Eval(w, Col(A), r) == Num(5);
  }
}
