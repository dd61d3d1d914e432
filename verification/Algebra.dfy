/** Relational algebra nodes and the tuples they produce.

    A tuple carries one value per provided expression. A selection, a theta join or a mapping may only
    read values its input provides; the soundness lemmas show that every well-formed plan produces exactly
    the tuples of those rows of its tables that satisfy all its conditions. */
module Algebra {
  import opened Sql

  datatype Node =
    | Relation(table: Table, columns: set<Column>)
    | Selection(input: Node, condition: Expr)
    | CrossProduct(left: Node, right: Node)
    | ThetaJoin(left: Node, right: Node, condition: Expr)
    | Map(input: Node, mapping: map<set<Expr>, set<Expr>>)
    | Projection(input: Node, targets: seq<Expr>)

  /** Static values are known to the engine; everything else has to be provided. */
  predicate NeedsMapping(e: Expr) { !e.Lit? }

  /** An expression and all expressions below it, as far as they have to be provided. */
  function CollectAll(e: Expr): set<Expr> {
    (if NeedsMapping(e) then {e} else {}) + CollectKids(e)
  }

  function CollectKids(e: Expr): (es: set<Expr>)
    decreases e, 0
  {
    set k, x | k in Kids(e) && x in CollectAll(k) :: x
  }

  /** The children of an expression that have to be provided before it can be computed. */
  function Arguments(e: Expr): set<Expr> {
    set k | k in Kids(e) && NeedsMapping(k)
  }

  function Derived(mapping: map<set<Expr>, set<Expr>>): set<Expr> {
    set args, e | args in mapping && e in mapping[args] :: e
  }

  function Provided(n: Node): set<Expr> {
    match n
    case Relation(_, cs) => set c | c in cs :: Col(c)
    case Selection(input, _) => Provided(input)
    case CrossProduct(l, r) => Provided(l) + Provided(r)
    case ThetaJoin(l, r, _) => Provided(l) + Provided(r)
    case Map(input, mapping) => Provided(input) + Derived(mapping)
    case Projection(input, _) => Provided(input)
  }

  function NodeTables(n: Node): set<Table> {
    match n
    case Relation(t, _) => {t}
    case Selection(input, _) => NodeTables(input)
    case CrossProduct(l, r) => NodeTables(l) + NodeTables(r)
    case ThetaJoin(l, r, _) => NodeTables(l) + NodeTables(r)
    case Map(input, _) => NodeTables(input)
    case Projection(input, _) => NodeTables(input)
  }

  /** The conditions of all selections and joins of a plan. */
  function Conditions(n: Node): set<Expr> {
    match n
    case Relation(_, _) => {}
    case Selection(input, p) => Conditions(input) + {p}
    case CrossProduct(l, r) => Conditions(l) + Conditions(r)
    case ThetaJoin(l, r, p) => Conditions(l) + Conditions(r) + {p}
    case Map(input, _) => Conditions(input)
    case Projection(input, _) => Conditions(input)
  }

  function CrossProducts(n: Node): nat {
    match n
    case Relation(_, _) => 0
    case Selection(input, _) => CrossProducts(input)
    case CrossProduct(l, r) => CrossProducts(l) + CrossProducts(r) + 1
    case ThetaJoin(l, r, _) => CrossProducts(l) + CrossProducts(r)
    case Map(input, _) => CrossProducts(input)
    case Projection(input, _) => CrossProducts(input)
  }

  // ----- well-formed plans -----

  /** A condition may be placed on an input of tables `ts` that provides `provided`. */
  predicate Applicable(p: Expr, ts: set<Table>, provided: set<Expr>) {
    && !p.Col? && !p.Lit?
    && Tables(p) <= ts
    && CollectKids(p) <= provided
  }

  /** Every derived expression is filed under its arguments, and these are available. */
  predicate Computable(mapping: map<set<Expr>, set<Expr>>, ts: set<Table>, provided: set<Expr>) {
    forall args, e :: args in mapping && e in mapping[args] ==>
      && !e.Col? && !e.Lit?
      && args == Arguments(e)
      && Tables(e) <= ts
      && Arguments(e) <= provided + Derived(mapping)
  }

  predicate WellFormed(n: Node) {
    match n
    case Relation(t, cs) => forall c :: c in cs ==> c.table == t
    case Selection(input, p) => WellFormed(input) && Applicable(p, NodeTables(input), Provided(input))
    case CrossProduct(l, r) => WellFormed(l) && WellFormed(r) && NodeTables(l) !! NodeTables(r)
    case ThetaJoin(l, r, p) =>
      && WellFormed(l) && WellFormed(r) && NodeTables(l) !! NodeTables(r)
      && Applicable(p, NodeTables(l) + NodeTables(r), Provided(l) + Provided(r))
    case Map(input, mapping) => WellFormed(input) && Computable(mapping, NodeTables(input), Provided(input))
    case Projection(_, _) => false
  }

  /** A plan that hands its rows to the user: the projection, if any, is at the top. */
  predicate WellFormedRoot(n: Node) {
    if n.Projection? then
      WellFormed(n.input) && forall e :: e in n.targets ==> CollectAll(e) <= Provided(n.input)
    else WellFormed(n)
  }

  lemma {:induction false} ProvidedTables(n: Node)
    requires WellFormed(n)
    ensures forall e :: e in Provided(n) ==> Tables(e) <= NodeTables(n)
    ensures forall p :: p in Conditions(n) ==> Tables(p) <= NodeTables(n)
  {
    match n
    case Relation(t, cs) =>
    case Selection(input, p) => ProvidedTables(input);
    case CrossProduct(l, r) => ProvidedTables(l); ProvidedTables(r);
    case ThetaJoin(l, r, p) => ProvidedTables(l); ProvidedTables(r);
    case Map(input, mapping) => ProvidedTables(input);
  }

  // ----- what a plan produces -----

  type Database = map<Table, set<map<string, Value>>>

  type Tuple = map<Expr, Value>

  ghost function Lookup(t: Tuple, e: Expr): Value {
    if e in t then t[e] else if e.Lit? then e.literal else Null
  }

  ghost function LookupKids(t: Tuple, e: Expr): (vs: seq<Value>)
    ensures |vs| == |Kids(e)|
  {
    seq(|Kids(e)|, i requires 0 <= i < |Kids(e)| => Lookup(t, Kids(e)[i]))
  }

  /** The truth value of a condition, read off the provided values of its children. */
  ghost function Test(w: World, p: Expr, t: Tuple): Truth {
    ToTruth(Combine(w, p, LookupKids(t, p)))
  }

  /** The value of an expression that a mapping deriving `derived` adds to the tuple `t`. */
  ghost function MapValue(w: World, derived: set<Expr>, t: Tuple, e: Expr): Value {
    if e in t then t[e]
    else if e in derived then
      Combine(w, e, seq(|Kids(e)|, i requires 0 <= i < |Kids(e)| => MapValue(w, derived, t, Kids(e)[i])))
    else if e.Lit? then e.literal
    else Null
  }

  ghost function Extend(w: World, derived: set<Expr>, t: Tuple): Tuple {
    map e | e in t.Keys + derived :: MapValue(w, derived, t, e)
  }

  ghost function TableTuple(cs: set<Column>, row: map<string, Value>): Tuple {
    map e | e in (set c | c in cs :: Col(c)) ::
      if e.Col? && e.column.name in row then row[e.column.name] else Null
  }

  ghost function Produce(w: World, db: Database, n: Node): set<Tuple> {
    match n
    case Relation(t, cs) => set row | t in db && row in db[t] :: TableTuple(cs, row)
    case Selection(input, p) => set t | t in Produce(w, db, input) && Test(w, p, t) == True
    case CrossProduct(l, r) =>
      set t1, t2 | t1 in Produce(w, db, l) && t2 in Produce(w, db, r) :: t1 + t2
    case ThetaJoin(l, r, p) =>
      set t1, t2 | t1 in Produce(w, db, l) && t2 in Produce(w, db, r) && Test(w, p, t1 + t2) == True :: t1 + t2
    case Map(input, mapping) =>
      set t | t in Produce(w, db, input) :: Extend(w, Derived(mapping), t)
    case Projection(input, targets) =>
      set t | t in Produce(w, db, input) :: Output(targets, t)
  }

  ghost function Output(targets: seq<Expr>, t: Tuple): Tuple {
    map e | e in targets :: Lookup(t, e)
  }

  // ----- rows of the tables -----

  /** `r` holds exactly one row of every table in `ts`: a row of their cross product. */
  ghost predicate IsRow(db: Database, ts: set<Table>, r: Row) {
    r.Keys == ts && forall t :: t in ts ==> t in db && r[t] in db[t]
  }

  ghost function Restrict(w: World, r: Row, es: set<Expr>): Tuple {
    map e | e in es :: Eval(w, e, r)
  }

  ghost predicate Selected(w: World, db: Database, n: Node, r: Row) {
    IsRow(db, NodeTables(n), r) && Satisfies(w, Conditions(n), r)
  }

  // ----- soundness of the single steps -----

  lemma {:induction false} TestIsHolds(w: World, p: Expr, r: Row, provided: set<Expr>)
    requires !p.Col? && CollectKids(p) <= provided
    ensures Test(w, p, Restrict(w, r, provided)) == Holds(w, p, r)
  {
    var t := Restrict(w, r, provided);
    forall i | 0 <= i < |Kids(p)| ensures LookupKids(t, p)[i] == EvalKids(w, p, r)[i] {
      var k := Kids(p)[i];
      assert k in Kids(p);
      if NeedsMapping(k) {
        assert k in CollectAll(k);
      }
    }
    assert LookupKids(t, p) == EvalKids(w, p, r);
  }

  lemma {:induction false} MapValueIsEval(w: World, derived: set<Expr>, provided: set<Expr>, r: Row, e: Expr)
    requires forall x :: x in derived ==> !x.Col? && Arguments(x) <= provided + derived
    requires e in provided + derived || e.Lit?
    ensures MapValue(w, derived, Restrict(w, r, provided), e) == Eval(w, e, r)
  {
    var t := Restrict(w, r, provided);
    if e in t {
    } else if e in derived {
      var vs := seq(|Kids(e)|, i requires 0 <= i < |Kids(e)| => MapValue(w, derived, t, Kids(e)[i]));
      forall i | 0 <= i < |Kids(e)| ensures vs[i] == EvalKids(w, e, r)[i] {
        var k := Kids(e)[i];
        assert NeedsMapping(k) ==> k in Arguments(e);
        MapValueIsEval(w, derived, provided, r, k);
      }
      assert vs == EvalKids(w, e, r);
    }
  }

  lemma {:induction false} ExtendIsRestrict(w: World, input: Node, mapping: map<set<Expr>, set<Expr>>, r: Row)
    requires Computable(mapping, NodeTables(input), Provided(input))
    ensures Extend(w, Derived(mapping), Restrict(w, r, Provided(input)))
         == Restrict(w, r, Provided(input) + Derived(mapping))
  {
    var t := Restrict(w, r, Provided(input));
    forall e | e in Provided(input) + Derived(mapping)
      ensures MapValue(w, Derived(mapping), t, e) == Eval(w, e, r)
    {
      MapValueIsEval(w, Derived(mapping), Provided(input), r, e);
    }
  }

  /** A plan reads from a joined row only what the row of its own tables says. */
  lemma {:induction false} SideOfJoin(w: World, n: Node, side: Row, both: Row)
    requires WellFormed(n)
    requires forall t :: t in NodeTables(n) ==> t in side && t in both && both[t] == side[t]
    ensures Restrict(w, both, Provided(n)) == Restrict(w, side, Provided(n))
    ensures Satisfies(w, Conditions(n), both) <==> Satisfies(w, Conditions(n), side)
  {
    ProvidedTables(n);
    forall e | e in Provided(n) + Conditions(n) ensures Eval(w, e, both) == Eval(w, e, side) {
      EvalOnTables(w, e, both, side);
    }
  }

  /** Joining the rows of two disjoint sets of tables joins their tuples. */
  lemma {:induction false} JoinedRow(w: World, db: Database, l: Node, r: Node, r1: Row, r2: Row)
    requires WellFormed(l) && WellFormed(r) && NodeTables(l) !! NodeTables(r)
    requires IsRow(db, NodeTables(l), r1) && IsRow(db, NodeTables(r), r2)
    ensures IsRow(db, NodeTables(l) + NodeTables(r), r1 + r2)
    ensures Restrict(w, r1 + r2, Provided(l) + Provided(r))
         == Restrict(w, r1, Provided(l)) + Restrict(w, r2, Provided(r))
    ensures Satisfies(w, Conditions(l) + Conditions(r), r1 + r2)
       <==> Satisfies(w, Conditions(l), r1) && Satisfies(w, Conditions(r), r2)
  {
    SideOfJoin(w, l, r1, r1 + r2);
    SideOfJoin(w, r, r2, r1 + r2);
    JoinRestrictions(w, r1 + r2, Provided(l), Provided(r));
  }

  lemma {:induction false} JoinRestrictions(w: World, r: Row, es1: set<Expr>, es2: set<Expr>)
    ensures Restrict(w, r, es1 + es2) == Restrict(w, r, es1) + Restrict(w, r, es2)
  {
  }

  lemma {:induction false} SplitRow(db: Database, ts1: set<Table>, ts2: set<Table>, r: Row) returns (r1: Row, r2: Row)
    requires ts1 !! ts2 && IsRow(db, ts1 + ts2, r)
    ensures IsRow(db, ts1, r1) && IsRow(db, ts2, r2) && r == r1 + r2
  {
    r1 := map t | t in ts1 :: r[t];
    r2 := map t | t in ts2 :: r[t];
  }

  // ----- soundness of plans -----

  /** Every tuple of a plan comes from a row of its tables that satisfies all its conditions. */
  lemma {:induction false} TupleHasRow(w: World, db: Database, n: Node, t: Tuple) returns (r: Row)
    requires WellFormed(n) && t in Produce(w, db, n)
    ensures Selected(w, db, n, r) && t == Restrict(w, r, Provided(n))
  {
    match n
    case Relation(table, cs) =>
      var row :| table in db && row in db[table] && t == TableTuple(cs, row);
      r := map[table := row];
    case Selection(input, p) =>
      r := TupleHasRow(w, db, input, t);
      TestIsHolds(w, p, r, Provided(input));
    case CrossProduct(l, rr) =>
      var t1, t2 :| t1 in Produce(w, db, l) && t2 in Produce(w, db, rr) && t == t1 + t2;
      var r1 := TupleHasRow(w, db, l, t1);
      var r2 := TupleHasRow(w, db, rr, t2);
      JoinedRow(w, db, l, rr, r1, r2);
      r := r1 + r2;
    case ThetaJoin(l, rr, p) =>
      var t1, t2 :| t1 in Produce(w, db, l) && t2 in Produce(w, db, rr) && Test(w, p, t1 + t2) == True && t == t1 + t2;
      var r1 := TupleHasRow(w, db, l, t1);
      var r2 := TupleHasRow(w, db, rr, t2);
      JoinedRow(w, db, l, rr, r1, r2);
      r := r1 + r2;
      TestIsHolds(w, p, r, Provided(l) + Provided(rr));
    case Map(input, mapping) =>
      var t0 :| t0 in Produce(w, db, input) && t == Extend(w, Derived(mapping), t0);
      r := TupleHasRow(w, db, input, t0);
      ExtendIsRestrict(w, input, mapping, r);
  }

  /** Every row of a plan's tables that satisfies all its conditions is produced. */
  lemma {:induction false} RowIsProduced(w: World, db: Database, n: Node, r: Row)
    requires WellFormed(n) && Selected(w, db, n, r)
    ensures Restrict(w, r, Provided(n)) in Produce(w, db, n)
  {
    match n
    case Relation(table, cs) =>
      assert Restrict(w, r, Provided(n)) == TableTuple(cs, r[table]);
    case Selection(input, p) =>
      RowIsProduced(w, db, input, r);
      TestIsHolds(w, p, r, Provided(input));
    case CrossProduct(l, rr) =>
      var r1, r2 := SplitRow(db, NodeTables(l), NodeTables(rr), r);
      JoinedRow(w, db, l, rr, r1, r2);
      RowIsProduced(w, db, l, r1);
      RowIsProduced(w, db, rr, r2);
    case ThetaJoin(l, rr, p) =>
      var r1, r2 := SplitRow(db, NodeTables(l), NodeTables(rr), r);
      JoinedRow(w, db, l, rr, r1, r2);
      RowIsProduced(w, db, l, r1);
      RowIsProduced(w, db, rr, r2);
      TestIsHolds(w, p, r, Provided(l) + Provided(rr));
    case Map(input, mapping) =>
      RowIsProduced(w, db, input, r);
      ExtendIsRestrict(w, input, mapping, r);
  }
}
