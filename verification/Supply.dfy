/** Providing the expressions that a predicate or an expression needs. */
module Supply {
  import opened Sql
  import opened Algebra

  /** Whatever is provided comes with everything below it. */
  ghost predicate SubClosed(es: set<Expr>) {
    forall e :: e in es ==> CollectAll(e) <= es
  }

  ghost predicate Supplied(n: Node) { WellFormed(n) && SubClosed(Provided(n)) }

  ghost predicate HasColumns(n: Node, cs: set<Column>) {
    forall c :: c in cs ==> Col(c) in Provided(n)
  }

  lemma {:induction false} CollectBelow(x: Expr, e: Expr)
    requires e in CollectAll(x)
    ensures !e.Lit? && CollectAll(e) <= CollectAll(x) && Columns(e) <= Columns(x)
    ensures e != x ==> CollectAll(e) <= CollectKids(x)
  {
    if e in CollectKids(x) {
      var k :| k in Kids(x) && e in CollectAll(k);
      CollectBelow(k, e);
      KidColumns(x, k);
    }
  }

  lemma {:induction false} ArgumentsBelow(e: Expr)
    ensures Arguments(e) <= CollectKids(e)
  {
    forall k | k in Arguments(e) ensures k in CollectKids(e) {
      assert k in CollectAll(k);
    }
  }

  lemma {:induction false} KidsClosed(x: Expr)
    ensures SubClosed(CollectKids(x)) && SubClosed(CollectAll(x))
  {
    forall e | e in CollectKids(x) ensures CollectAll(e) <= CollectKids(x) {
      var k :| k in Kids(x) && e in CollectAll(k);
      CollectBelow(k, e);
    }
    forall e | e in CollectAll(x) ensures CollectAll(e) <= CollectAll(x) {
      CollectBelow(x, e);
    }
  }

  /** `_generate_expression_mapping_dict`: files every expression under its arguments. */
  method GenerateExpressionMapping(expressions: set<Expr>) returns (mapping: map<set<Expr>, set<Expr>>)
    ensures mapping.Keys == set e | e in expressions :: Arguments(e)
    ensures forall args :: args in mapping ==> mapping[args] == set e | e in expressions && Arguments(e) == args
    ensures forall args, e :: args in mapping && e in mapping[args] ==>
      forall k :: k in args <==> k in Kids(e) && !k.Lit?
    ensures Derived(mapping) == expressions
  {
    mapping := map[];
    var todo := expressions;
    while todo != {}
      invariant todo <= expressions
      invariant mapping.Keys == set e | e in expressions - todo :: Arguments(e)
      invariant forall args :: args in mapping ==>
        mapping[args] == set e | e in expressions - todo && Arguments(e) == args
    {
      var e :| e in todo;
      todo := todo - {e};
      var args := Arguments(e);
      mapping := mapping[args := (if args in mapping then mapping[args] else {}) + {e}];
    }
    forall e | e in expressions ensures e in Derived(mapping) {
      assert Arguments(e) in mapping && e in mapping[Arguments(e)];
    }
  }

  ghost predicate Suppliable(required: set<Expr>, input: Node) {
    forall e :: e in required ==>
      && !e.Lit? && Tables(e) <= NodeTables(input) && HasColumns(input, Columns(e))
      && CollectAll(e) <= required + Provided(input)
  }

  lemma {:induction false} ColumnsAreThere(required: set<Expr>, input: Node, c: Column)
    requires Suppliable(required, input) && Col(c) in required
    ensures Col(c) in Provided(input)
  {
    assert c in Columns(Col(c));
  }

  lemma {:induction false} MissingIsComputable(required: set<Expr>, input: Node, mapping: map<set<Expr>, set<Expr>>)
    requires Suppliable(required, input)
    requires forall args :: args in mapping ==>
      mapping[args] == set e | e in required - Provided(input) && Arguments(e) == args
    requires Derived(mapping) == required - Provided(input)
    ensures Computable(mapping, NodeTables(input), Provided(input))
  {
    forall e | e in required ensures Arguments(e) <= required + Provided(input) {
      ArgumentsBelow(e);
    }
    forall c | Col(c) in required ensures Col(c) in Provided(input) {
      ColumnsAreThere(required, input, c);
    }
  }

  lemma {:induction false} MapSupplied(required: set<Expr>, input: Node, mapping: map<set<Expr>, set<Expr>>)
    requires Supplied(input) && Suppliable(required, input)
    requires Computable(mapping, NodeTables(input), Provided(input))
    requires Derived(mapping) == required - Provided(input)
    ensures Supplied(Map(input, mapping)) && Provided(Map(input, mapping)) == Provided(input) + required
  {
    hide CollectAll;
    hide Computable;
    hide Derived;
    hide HasColumns;
    hide Tables;
    assert Provided(Map(input, mapping)) == Provided(input) + Derived(mapping);
  }

  lemma {:induction false} SelectionSupplied(input: Node, p: Expr)
    requires Supplied(input) && Applicable(p, NodeTables(input), Provided(input))
    ensures Supplied(Selection(input, p))
  {
    hide CollectAll;
    hide CollectKids;
  }

  /** Adds a mapping for those of the required expressions that the input does not provide. */
  method AddMissing(required: set<Expr>, input: Node) returns (n: Node)
    requires Supplied(input) && Suppliable(required, input)
    ensures Supplied(n) && Provided(n) == Provided(input) + required
    ensures NodeTables(n) == NodeTables(input) && Conditions(n) == Conditions(input)
    ensures CrossProducts(n) == CrossProducts(input)
  {
    hide Supplied;
    hide Suppliable;
    hide Computable;
    hide Derived;
    var missing := required - Provided(input);
    if missing == {} {
      forall e | e in required ensures e in Provided(input) {
        assert e !in missing;
      }
      assert Provided(input) + required == Provided(input);
      return input;
    }
    var mapping := GenerateExpressionMapping(missing);
    MissingIsComputable(required, input, mapping);
    n := Map(input, mapping);
    MapSupplied(required, input, mapping);
  }

  /** `_ensure_predicate_applicability` and `_ensure_expression_applicability`: both provide everything
      below the given predicate or expression. */
  method EnsureApplicability(e: Expr, input: Node) returns (n: Node)
    requires Supplied(input) && Tables(e) <= NodeTables(input) && HasColumns(input, Columns(e))
    ensures Supplied(n) && Provided(n) == Provided(input) + CollectKids(e)
    ensures NodeTables(n) == NodeTables(input) && Conditions(n) == Conditions(input)
    ensures CrossProducts(n) == CrossProducts(input)
  {
    KidsClosed(e);
    forall x | x in CollectKids(e)
      ensures !x.Lit? && Tables(x) <= NodeTables(input) && HasColumns(input, Columns(x))
    {
      assert x in CollectAll(e);
      CollectBelow(e, x);
    }
    n := AddMissing(CollectKids(e), input);
  }

  /** `_add_expression` for expressions without subqueries. */
  method AddExpression(e: Expr, input: Node) returns (r: Result<Node>)
    requires Supplied(input) && Tables(e) <= NodeTables(input) && HasColumns(input, Columns(e))
    ensures r.Failure? <==>
      e !in Provided(input) && !e.Col? && !e.Lit? && !(e.App? && (e.fn.Cast? || e.fn.Function? || e.fn.Math?))
    ensures r.Success? ==>
      var n := r.value;
      && Supplied(n) && Provided(n) == Provided(input) + CollectKids(e)
      && NodeTables(n) == NodeTables(input) && Conditions(n) == Conditions(input)
      && CrossProducts(n) == CrossProducts(input)
  {
    if e in Provided(input) {
      assert CollectKids(e) <= CollectAll(e);
      return Success(input);
    }
    match e
    case Col(_) => return Success(input);
    case Lit(_) => return Success(input);
    case App(fn, _) =>
      if fn.Cast? || fn.Function? || fn.Math? {
        var n := EnsureApplicability(e, input);
        return Success(n);
      } else {
        return Failure;
      }
    case _ => return Failure;
  }

  /** `_convert_predicate` for predicates without subqueries: every kind ends in one selection. */
  method ConvertPredicate(p: Expr, input: Node) returns (n: Node)
    requires Supplied(input) && IsPredicate(p) && Tables(p) <= NodeTables(input) && HasColumns(input, Columns(p))
    ensures Supplied(n) && Provided(n) == Provided(input) + CollectKids(p)
    ensures NodeTables(n) == NodeTables(input) && Conditions(n) == Conditions(input) + {p}
    ensures CrossProducts(n) == CrossProducts(input)
  {
    var prepared := EnsureApplicability(p, input);
    n := Selection(prepared, p);
  }

  /** Joins and selections of supplied plans are supplied if their condition is applicable. */
  lemma {:induction false} ThetaJoinSupplied(left: Node, right: Node, p: Expr)
    requires Supplied(left) && Supplied(right) && NodeTables(left) !! NodeTables(right)
    requires Applicable(p, NodeTables(left) + NodeTables(right), Provided(left) + Provided(right))
    ensures Supplied(ThetaJoin(left, right, p))
  {
    hide CollectAll;
    hide CollectKids;
  }

  lemma {:induction false} CrossProductSupplied(left: Node, right: Node)
    requires Supplied(left) && Supplied(right) && NodeTables(left) !! NodeTables(right)
    ensures Supplied(CrossProduct(left, right))
  {
    hide CollectAll;
    hide CollectKids;
  }
}
