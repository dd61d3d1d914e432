/** Tables connected through join predicates. */
module JoinGraph {
  import opened Sql
  import Graph

  ghost function TableEdges(ps: set<Expr>): set<set<Table>> { set p | p in ps :: Tables(p) }

  ghost predicate Connected(ps: set<Expr>, a: Table, b: Table) { Graph.Connected(TableEdges(ps), a, b) }

  lemma {:induction false} ConnectedStep(ps: set<Expr>, p: Expr, a: Table, b: Table)
    requires p in ps && a in Tables(p) && b in Tables(p)
    ensures Connected(ps, a, b)
  {
    assert Tables(p) in TableEdges(ps);
    Graph.Step(TableEdges(ps), a, b);
  }

  lemma {:induction false} ConnectedGrows(ps: set<Expr>, qs: set<Expr>, a: Table, b: Table)
    requires ps <= qs && Connected(ps, a, b)
    ensures Connected(qs, a, b)
  {
    forall e, x, y | e in TableEdges(ps) && x in e && y in e ensures Connected(qs, x, y) {
      var p :| p in ps && Tables(p) == e;
      ConnectedStep(qs, p, x, y);
    }
    Graph.Within(TableEdges(ps), TableEdges(qs), a, b);
  }

  ghost predicate ClosedUnder(ps: set<Expr>, ts: set<Table>) {
    forall p, a, b :: p in ps && a in Tables(p) && b in Tables(p) && a in ts ==> b in ts
  }

  lemma {:induction false} ConnectedStays(ps: set<Expr>, ts: set<Table>, a: Table, b: Table)
    requires ClosedUnder(ps, ts) && a in ts && Connected(ps, a, b)
    ensures b in ts
  {
    Graph.Stays(TableEdges(ps), ts, a, b);
  }

  ghost function Component(ps: set<Expr>, ts: set<Table>, a: Table): set<Table> {
    set b | b in ts && Connected(ps, a, b)
  }

  /** The connected components of the tables `ts`. */
  ghost function Components(ps: set<Expr>, ts: set<Table>): set<set<Table>> {
    set a | a in ts :: Component(ps, ts, a)
  }
}
