/** FROM items and SELECT queries. */
module Query {
  import opened Sql

  datatype JoinType =
    | InnerJoin | CrossJoin | OuterJoin | LeftJoin | RightJoin
    | NaturalInnerJoin | NaturalOuterJoin | NaturalLeftJoin | NaturalRightJoin

  datatype LeafKind = DirectTable | SubqueryTable | ValuesTable | FunctionTable

  datatype TableSource =
    | Leaf(kind: LeafKind, table: Table)
    | JoinSource(lhs: TableSource, rhs: TableSource, joinType: JoinType, condition: Option<Expr>)

  /** A query without grouping and ordering; `star` stands for SELECT * . */
  datatype SelectQuery = SelectQuery(star: bool, targets: seq<Expr>, from: seq<TableSource>, where: Option<Expr>)

  function Leaves(src: TableSource): seq<TableSource> {
    match src
    case Leaf(_, _) => [src]
    case JoinSource(l, r, _, _) => Leaves(l) + Leaves(r)
  }

  function SourceTables(src: TableSource): set<Table> {
    match src
    case Leaf(_, t) => {t}
    case JoinSource(l, r, _, _) => SourceTables(l) + SourceTables(r)
  }

  function FromTables(from: seq<TableSource>): set<Table> {
    set src, t | src in from && t in SourceTables(src) :: t
  }

  lemma {:induction false} FromTablesAppend(from: seq<TableSource>, src: TableSource)
    ensures FromTables(from + [src]) == FromTables(from) + SourceTables(src)
  {
    assert src in from + [src];
  }

  function QueryColumns(q: SelectQuery): set<Column> {
    (if q.where.Some? then Columns(q.where.value) else {}) +
    set e, c | e in q.targets && c in Columns(e) :: c
  }
}
