/** Tables, columns, expressions and predicates of the query abstraction layer, and their
    meaning on a row in SQL's three-valued logic. */
module Sql {

  datatype Option<+T> = None | Some(value: T)

  datatype Result<+T> = Success(value: T) | Failure {
    predicate IsFailure() { Failure? }

    function PropagateFailure<U>(): Result<U>
      requires Failure?
    {
      Failure
    }

    function Extract(): T
      requires Success?
    {
      value
    }
  }

  ghost predicate Distinct<T>(es: seq<T>) {
    forall i, j :: 0 <= i < j < |es| ==> es[i] != es[j]
  }

  /** A table reference, identified by its name and its alias. */
  datatype Table = Table(name: string, alias: string)

  /** A column that is bound to its table. */
  datatype Column = Column(name: string, table: Table)

  datatype Value = Null | Bool(b: bool) | Num(n: int) | Text(s: string)

  datatype Truth = True | False | Unknown

  datatype CmpOp =
    | Equal | NotEqual | Less | LessEqual | Greater | GreaterEqual
    | DistinctFrom | NotDistinctFrom | Pattern(name: string)

  datatype UnaryOp = Plain | IsNull | IsNotNull | IsTrue | IsNotTrue | IsFalse | IsNotFalse

  /** The operators that build an expression from argument expressions. */
  datatype Fn =
    | Math(op: string) | Cast(target: string) | Function(name: string) | Quantifier(which: string) | Array

  /** Expressions; predicates are expressions, as in the class hierarchy. */
  datatype Expr =
    | Col(column: Column)
    | Lit(literal: Value)
    | App(fn: Fn, args: seq<Expr>)
    | Cmp(op: CmpOp, lhs: Expr, rhs: Expr)
    | Between(operand: Expr, lower: Expr, upper: Expr)
    | In(operand: Expr, values: seq<Expr>, negated: bool)
    | Unary(operand: Expr, uop: UnaryOp)
    | And(children: seq<Expr>)
    | Or(children: seq<Expr>)
    | Not(child: Expr)

  // ----- structure -----

  /** The direct children, from left to right (`iterchildren` / `iterexpressions`). */
  function Kids(e: Expr): (ks: seq<Expr>)
    ensures forall i :: 0 <= i < |ks| ==> ks[i] < e
  {
    match e
    case Col(_) => []
    case Lit(_) => []
    case App(_, args) => args
    case Cmp(_, l, r) => [l, r]
    case Between(x, lo, hi) => [x, lo, hi]
    case In(x, vs, _) => [x] + vs
    case Unary(x, _) => [x]
    case And(cs) => cs
    case Or(cs) => cs
    case Not(c) => [c]
  }

  /** The predicates that can be constructed: the parts of a compound predicate are predicates, and
      conjunctions and disjunctions have at least two of them. */
  predicate IsPredicate(e: Expr) {
    match e
    case Col(_) => false
    case Lit(_) => false
    case App(_, _) => false
    case In(_, vs, _) => vs != []
    case And(cs) => |cs| >= 2 && forall i :: 0 <= i < |cs| ==> IsPredicate(cs[i])
    case Or(cs) => |cs| >= 2 && forall i :: 0 <= i < |cs| ==> IsPredicate(cs[i])
    case Not(c) => IsPredicate(c)
    case _ => true
  }

  /** An expression and everything below it. */
  ghost function Subexpressions(e: Expr): set<Expr> {
    {e} + set k, x | k in Kids(e) && x in Subexpressions(k) :: x
  }

  function Columns(e: Expr): set<Column> {
    (if e.Col? then {e.column} else {}) +
    set k, c | k in Kids(e) && c in Columns(k) :: c
  }

  function Tables(e: Expr): (ts: set<Table>)
    ensures forall t :: t in ts <==> exists c :: c in Columns(e) && c.table == t
  {
    set c | c in Columns(e) :: c.table
  }

  lemma {:induction false} OwnColumn(c: Column)
    ensures Columns(Col(c)) == {c} && Tables(Col(c)) == {c.table}
  {
  }

  lemma {:induction false} KidColumns(e: Expr, k: Expr)
    requires k in Kids(e)
    ensures Columns(k) <= Columns(e)
    ensures Tables(k) <= Tables(e)
  {
  }

  /** `CompoundPredicate.create_and`: absent parts are skipped and a single part is returned as it is. */
  function CreateAnd(parts: seq<Expr>): (r: Result<Expr>)
    ensures r.Failure? <==> parts == []
  {
    if |parts| == 0 then Failure
    else if |parts| == 1 then Success(parts[0])
    else Success(And(parts))
  }

  /** Whether a predicate joins several tables (`AbstractPredicate.is_join`). */
  predicate IsJoin(p: Expr) {
    match p
    case Cmp(_, l, r) =>
      |Tables(l)| > 1 || |Tables(r)| > 1 ||
      (Tables(l) != {} && Tables(r) != {} && Tables(l) != Tables(r))
    case Between(x, lo, hi) =>
      |Tables(x)| > 1 || |Tables(x) + Tables(lo)| > 1 || |Tables(x) + Tables(hi)| > 1
    case In(x, vs, _) =>
      |Tables(x)| > 1 || exists i :: 0 <= i < |vs| && |Tables(x) + Tables(vs[i])| > 1
    case Unary(x, _) => |Tables(x)| > 1
    case And(cs) => exists i :: 0 <= i < |cs| && IsJoin(cs[i])
    case Or(cs) => exists i :: 0 <= i < |cs| && IsJoin(cs[i])
    case Not(c) => IsJoin(c)
    case _ => false
  }

  // ----- meaning -----

  /** What the database contributes: the value of every operator, and the order behind `<=`. */
  datatype World = World(
    apply: (Fn, seq<Value>) -> Value,
    leq: (Value, Value) -> bool,
    pattern: (string, Value, Value) -> Truth)

  /** One row of each table. */
  type Row = map<Table, map<string, Value>>

  function ColumnValue(r: Row, c: Column): Value {
    if c.table in r && c.name in r[c.table] then r[c.table][c.name] else Null
  }

  function ToTruth(v: Value): Truth {
    match v
    case Bool(b) => if b then True else False
    case _ => Unknown
  }

  function FromTruth(t: Truth): (v: Value)
    ensures ToTruth(v) == t
  {
    match t case True => Bool(true) case False => Bool(false) case Unknown => Null
  }

  function FromBool(b: bool): Truth { if b then True else False }

  function Negate(t: Truth): Truth {
    match t case True => False case False => True case Unknown => Unknown
  }

  /** Conjunction: False if a part is, else Unknown if a part is, else True. */
  ghost function AllOf(ts: set<Truth>): Truth {
    if False in ts then False else if Unknown in ts then Unknown else True
  }

  /** Disjunction: True if a part is, else Unknown if a part is, else False. */
  ghost function AnyOf(ts: set<Truth>): Truth {
    if True in ts then True else if Unknown in ts then Unknown else False
  }

  ghost function Compare(w: World, op: CmpOp, a: Value, b: Value): Truth {
    match op
    case DistinctFrom => FromBool(a != b)
    case NotDistinctFrom => FromBool(a == b)
    case _ =>
      if a.Null? || b.Null? then Unknown else
      match op
      case Equal => FromBool(a == b)
      case NotEqual => FromBool(a != b)
      case LessEqual => FromBool(w.leq(a, b))
      case GreaterEqual => FromBool(w.leq(b, a))
      case Less => FromBool(!w.leq(b, a))
      case Greater => FromBool(!w.leq(a, b))
      case Pattern(name) => w.pattern(name, a, b)
      case _ => Unknown
  }

  ghost function TruthsOf(vs: seq<Value>): set<Truth> {
    set i | 0 <= i < |vs| :: ToTruth(vs[i])
  }

  /** The value of `e` from the values of its children; only the operator at the top of `e` counts. */
  ghost function Combine(w: World, e: Expr, vs: seq<Value>): Value
    requires |vs| == |Kids(e)|
  {
    match e
    case Col(_) => Null
    case Lit(v) => v
    case App(fn, _) => w.apply(fn, vs)
    case Cmp(op, _, _) => FromTruth(Compare(w, op, vs[0], vs[1]))
    case Between(_, _, _) =>
      FromTruth(AllOf({Compare(w, GreaterEqual, vs[0], vs[1]), Compare(w, LessEqual, vs[0], vs[2])}))
    case In(_, _, negated) =>
      var found := AnyOf(set i | 1 <= i < |vs| :: Compare(w, Equal, vs[0], vs[i]));
      FromTruth(if negated then Negate(found) else found)
    case Unary(_, uop) =>
      var t := ToTruth(vs[0]);
      FromTruth(match uop
                case Plain => t
                case IsNull => FromBool(vs[0].Null?)
                case IsNotNull => FromBool(!vs[0].Null?)
                case IsTrue => FromBool(t == True)
                case IsNotTrue => FromBool(t != True)
                case IsFalse => FromBool(t == False)
                case IsNotFalse => FromBool(t != False))
    case And(_) => FromTruth(AllOf(TruthsOf(vs)))
    case Or(_) => FromTruth(AnyOf(TruthsOf(vs)))
    case Not(_) => FromTruth(Negate(ToTruth(vs[0])))
  }

  ghost function Eval(w: World, e: Expr, r: Row): Value
    decreases e, 1
  {
    if e.Col? then ColumnValue(r, e.column)
    else Combine(w, e, EvalKids(w, e, r))
  }

  ghost function EvalKids(w: World, e: Expr, r: Row): (vs: seq<Value>)
    decreases e, 0
    ensures |vs| == |Kids(e)|
    ensures forall i :: 0 <= i < |vs| ==> vs[i] == Eval(w, Kids(e)[i], r)
  {
    seq(|Kids(e)|, i requires 0 <= i < |Kids(e)| => Eval(w, Kids(e)[i], r))
  }

  /** The truth value of a condition on a row. */
  ghost function Holds(w: World, p: Expr, r: Row): Truth { ToTruth(Eval(w, p, r)) }

  ghost predicate AgreeOn(cs: set<Column>, r1: Row, r2: Row) {
    forall c :: c in cs ==> ColumnValue(r1, c) == ColumnValue(r2, c)
  }

  /** The value of an expression depends on the columns it mentions and on nothing else. */
  lemma {:induction false} EvalLocal(w: World, e: Expr, r1: Row, r2: Row)
    requires AgreeOn(Columns(e), r1, r2)
    ensures Eval(w, e, r1) == Eval(w, e, r2)
  {
    if !e.Col? {
      forall i | 0 <= i < |Kids(e)|
        ensures EvalKids(w, e, r1)[i] == EvalKids(w, e, r2)[i]
      {
        KidColumns(e, Kids(e)[i]);
        EvalLocal(w, Kids(e)[i], r1, r2);
      }
      assert EvalKids(w, e, r1) == EvalKids(w, e, r2);
    }
  }

  /** Rows that hold the same row of every table of `e` give it the same value. */
  lemma {:induction false} EvalOnTables(w: World, e: Expr, r1: Row, r2: Row)
    requires forall t :: t in Tables(e) ==> t in r1 && t in r2 && r1[t] == r2[t]
    ensures Eval(w, e, r1) == Eval(w, e, r2)
  {
    EvalLocal(w, e, r1, r2);
  }

  // ----- conjuncts -----

  function SeqSet(es: seq<Expr>): set<Expr> { set e | e in es }

  /** The parts of a conjunction; any other predicate is its own only part. */
  function TopConjuncts(p: Expr): seq<Expr> { if p.And? then p.children else [p] }

  /** The maximal subpredicates of `p` that are no conjunctions. */
  function Conjuncts(p: Expr): set<Expr> {
    if p.And? then set c, a | c in p.children && a in Conjuncts(c) :: a else {p}
  }

  function AllConjuncts(ps: set<Expr>): set<Expr> {
    set p, a | p in ps && a in Conjuncts(p) :: a
  }

  lemma {:induction false} AllConjunctsUnite(ps: set<Expr>, qs: set<Expr>)
    ensures AllConjuncts(ps + qs) == AllConjuncts(ps) + AllConjuncts(qs)
  {
    hide Conjuncts;
  }

  lemma {:induction false} AllConjunctsOfOne(p: Expr)
    ensures AllConjuncts({p}) == Conjuncts(p)
  {
    hide Conjuncts;
  }

  ghost function Verdicts(w: World, ps: set<Expr>, r: Row): set<Truth> {
    set p | p in ps :: Holds(w, p, r)
  }

  /** The truth value of a conjunction of predicates, given as a set. */
  ghost function HoldsAll(w: World, ps: set<Expr>, r: Row): Truth { AllOf(Verdicts(w, ps, r)) }

  ghost predicate Satisfies(w: World, ps: set<Expr>, r: Row) {
    forall p :: p in ps ==> Holds(w, p, r) == True
  }

  lemma {:induction false} HoldsAllByCases(w: World, ps: set<Expr>, r: Row)
    ensures HoldsAll(w, ps, r) == True <==> Satisfies(w, ps, r)
    ensures HoldsAll(w, ps, r) == False <==> exists p :: p in ps && Holds(w, p, r) == False
  {
    var vs := Verdicts(w, ps, r);
    assert forall p :: p in ps ==> Holds(w, p, r) in vs;
  }

  lemma {:induction false} AndIsHoldsAll(w: World, cs: seq<Expr>, r: Row)
    ensures Holds(w, And(cs), r) == HoldsAll(w, (set c | c in cs), r)
  {
    var vs := EvalKids(w, And(cs), r);
    var ps := set c | c in cs;
    assert Kids(And(cs)) == cs;
    assert forall i :: 0 <= i < |cs| ==> ToTruth(vs[i]) == Holds(w, cs[i], r);
    assert TruthsOf(vs) == Verdicts(w, ps, r) by {
      forall p | p in ps ensures Holds(w, p, r) in TruthsOf(vs) {
        var i :| 0 <= i < |cs| && cs[i] == p;
        assert ToTruth(vs[i]) in TruthsOf(vs);
      }
      forall t | t in TruthsOf(vs) ensures t in Verdicts(w, ps, r) {
        var i :| 0 <= i < |vs| && t == ToTruth(vs[i]);
        assert cs[i] in ps;
      }
    }
  }

  /** Replacing every predicate of a set by its conjuncts keeps the value of the whole set. */
  lemma {:induction false} HoldsAllConjuncts(w: World, ps: set<Expr>, r: Row)
    requires forall p :: p in ps ==> Holds(w, p, r) == HoldsAll(w, Conjuncts(p), r)
    ensures HoldsAll(w, ps, r) == HoldsAll(w, AllConjuncts(ps), r)
  {
    var all := AllConjuncts(ps);
    HoldsAllByCases(w, ps, r);
    HoldsAllByCases(w, all, r);
    forall p | p in ps
      ensures Holds(w, p, r) == True <==> Satisfies(w, Conjuncts(p), r)
      ensures Holds(w, p, r) == False <==> exists a :: a in Conjuncts(p) && Holds(w, a, r) == False
    {
      HoldsAllByCases(w, Conjuncts(p), r);
    }
    forall p, a | p in ps && a in Conjuncts(p) ensures a in all {}
  }

  /** A predicate has the truth value of the conjunction of its conjuncts. */
  lemma {:induction false} HoldsByConjuncts(w: World, p: Expr, r: Row)
    ensures Holds(w, p, r) == HoldsAll(w, Conjuncts(p), r)
  {
    if p.And? {
      var ps := set c | c in p.children;
      forall c | c in ps ensures Holds(w, c, r) == HoldsAll(w, Conjuncts(c), r) {
        HoldsByConjuncts(w, c, r);
      }
      AndIsHoldsAll(w, p.children, r);
      HoldsAllConjuncts(w, ps, r);
      assert AllConjuncts(ps) == Conjuncts(p);
    } else {
      assert Verdicts(w, {p}, r) == {Holds(w, p, r)};
    }
  }

  /** A predicate is True exactly where all its conjuncts are. */
  lemma {:induction false} TrueByConjuncts(w: World, p: Expr, r: Row)
    ensures Holds(w, p, r) == True <==> Satisfies(w, Conjuncts(p), r)
  {
    HoldsByConjuncts(w, p, r);
    HoldsAllByCases(w, Conjuncts(p), r);
  }

  /** The conjuncts of a predicate are no conjunctions; they are predicates over its columns. */
  lemma {:induction false} ConjunctIsFlat(p: Expr, a: Expr)
    requires a in Conjuncts(p)
    ensures !a.And? && Conjuncts(a) == {a}
    ensures IsPredicate(p) ==> IsPredicate(a)
    ensures Columns(a) <= Columns(p) && Tables(a) <= Tables(p)
  {
    if p.And? {
      var c :| c in p.children && a in Conjuncts(c);
      ConjunctIsFlat(c, a);
      KidColumns(p, c);
    }
  }

  lemma {:induction false} SomeConjunct(p: Expr) returns (a: Expr)
    requires IsPredicate(p)
    ensures a in Conjuncts(p)
  {
    if p.And? {
      a := SomeConjunct(p.children[0]);
      assert p.children[0] in p.children;
    } else {
      a := p;
    }
  }

  /** Every column of a predicate is a column of one of its conjuncts. */
  lemma {:induction false} ConjunctOfColumn(p: Expr, c: Column) returns (a: Expr)
    requires c in Columns(p)
    ensures a in Conjuncts(p) && c in Columns(a)
  {
    if p.And? {
      var k :| k in p.children && c in Columns(k);
      a := ConjunctOfColumn(k, c);
    } else {
      a := p;
    }
  }

  lemma {:induction false} CreateAndParts(ps: seq<Expr>)
    requires ps != [] && forall p :: p in ps ==> IsPredicate(p)
    ensures IsPredicate(CreateAnd(ps).value)
    ensures Conjuncts(CreateAnd(ps).value) == AllConjuncts(set p | p in ps)
    ensures forall c :: c in Columns(CreateAnd(ps).value) ==> exists p :: p in ps && c in Columns(p)
  {
    if |ps| == 1 {
      assert ps == [ps[0]];
    } else {
      assert Kids(And(ps)) == ps;
    }
  }
}
