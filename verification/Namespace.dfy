/** The parser's caches: columns of physical tables, and columns found in a query scope. */
module Namespace {
  import opened Sql

  /** The columns of every physical table. */
  type Schema = map<string, seq<string>>

  function ColumnsIn(schema: Schema, table: string): seq<string> { if table in schema then schema[table] else [] }

  /** A table in a FROM clause; virtual tables are not in the schema. */
  datatype TableRef = TableRef(fullName: string, alias: string, virtual: bool) {
    function Identifier(): string { if alias != "" then alias else fullName }
  }

  function VirtualTable(alias: string): TableRef { TableRef("", alias, true) }

  // ----- schema cache -----

  class SchemaCache {
    var schema: Option<Schema>
    var lookupCache: map<string, seq<string>>

    constructor (schema: Option<Schema>)
      ensures Valid() && this.schema == schema
    {
      this.schema := schema;
      lookupCache := map[];
    }

    /** Every entry agrees with the current schema. */
    ghost predicate Valid()
      reads this
    {
      forall t :: t in lookupCache ==> schema.Some? && lookupCache[t] == ColumnsIn(schema.value, t)
    }

    /** `initialize_with`: entries of another schema are dropped. */
    method InitializeWith(newSchema: Option<Schema>)
      requires Valid()
      modifies this
      ensures Valid() && schema == newSchema
      ensures old(schema) == newSchema ==> lookupCache == old(lookupCache)
    {
      if schema.Some? && schema != newSchema {
        schema := newSchema;
        lookupCache := map[];
      } else if schema.Some? {
        return;
      }
      schema := newSchema;
    }

    /** `_inflate_cache` */
    method InflateCache(table: string) returns (columns: seq<string>)
      requires Valid()
      modifies this`lookupCache
      ensures Valid()
      ensures columns == if schema.None? then [] else ColumnsIn(schema.value, table)
    {
      if table in lookupCache {
        return lookupCache[table];
      }
      if schema.None? {
        return [];
      }
      columns := ColumnsIn(schema.value, table);
      lookupCache := lookupCache[table := columns];
    }

    /** `lookup_column` for one candidate table */
    method DefinesColumn(name: string, candidate: TableRef) returns (found: bool)
      requires Valid()
      modifies this`lookupCache
      ensures Valid()
      ensures found <==> Defines(schema, name, candidate)
    {
      if schema.None? || candidate.virtual {
        return false;
      }
      var columns := InflateCache(candidate.fullName);
      found := name in columns;
    }

    /** `columns_of` */
    method ColumnsOf(table: string) returns (columns: seq<string>)
      requires Valid()
      modifies this`lookupCache
      ensures Valid()
      ensures columns == if schema.None? then [] else ColumnsIn(schema.value, table)
    {
      if schema.None? {
        return [];
      }
      columns := InflateCache(table);
    }
  }

  predicate Defines(schema: Option<Schema>, name: string, t: TableRef) {
    schema.Some? && !t.virtual && name in ColumnsIn(schema.value, t.fullName)
  }

  // ----- scopes -----

  datatype Source = Cte | Subquery | SetOp | Values | Temporary

  /** What stands in a SELECT clause, as far as it names columns. */
  datatype Projection =
    | Named(name: string)
    | ColumnOf(name: string)
    | Star(table: Option<TableRef>)
    | Unnamed

  /** Columns found so far, and the scope of the last virtual table among those that they stem from. */
  datatype Collected = Collected(names: seq<string>, last: Option<QueryNamespace>)

  /** The output columns of scopes. */
  type Shapes = map<QueryNamespace, seq<string>>

  class QueryNamespace {
    const cache: SchemaCache
    const parent: QueryNamespace?
    ghost const depth: nat
    ghost const ancestors: set<QueryNamespace>
    var subqueryChildren: map<string, QueryNamespace>
    var setopChildren: seq<QueryNamespace>
    var currentCtx: seq<TableRef>
    var cteSources: map<string, QueryNamespace>
    var tableSources: map<string, TableRef>
    var outputShape: seq<string>
    var producedColumns: set<string>
    var columnCache: map<string, TableRef>

    constructor (cache: SchemaCache, parent: QueryNamespace?)
      requires parent != null ==> parent.Placed()
      ensures this.cache == cache && this.parent == parent && Placed()
      ensures subqueryChildren == map[] && setopChildren == [] && currentCtx == [] && cteSources == map[]
      ensures tableSources == map[] && outputShape == [] && producedColumns == {} && columnCache == map[]
    {
      this.cache := cache;
      this.parent := parent;
      depth := if parent == null then 0 else parent.depth + 1;
      ancestors := if parent == null then {} else parent.ancestors + {parent};
      subqueryChildren, setopChildren, currentCtx, cteSources := map[], [], [], map[];
      tableSources, outputShape, producedColumns, columnCache := map[], [], {}, map[];
    }

    /** The scope hangs below its parent. */
    ghost predicate Placed()
      decreases depth
    {
      if parent == null then ancestors == {}
      else parent.depth < depth && ancestors == parent.ancestors + {parent} && parent.Placed()
    }

    lemma {:induction false} AncestorsAreHigher(n: QueryNamespace)
      requires Placed() && n in ancestors
      ensures n.depth < depth && n.Placed() && n.ancestors < ancestors
      decreases depth
    {
      if n != parent {
        parent.AncestorsAreHigher(n);
      } else {
        if n in n.ancestors {
          n.AncestorsAreHigher(n);
        }
      }
    }

    /** `_lookup_namespace`: the scope of a name, in this scope or an enclosing one. */
    function LookupNamespace(key: string): Option<QueryNamespace>
      requires Placed()
      reads this`cteSources, this`subqueryChildren, ancestors`cteSources, ancestors`subqueryChildren
      decreases depth
    {
      if key in cteSources then Some(cteSources[key])
      else if key in subqueryChildren then Some(subqueryChildren[key])
      else if parent == null then None
      else parent.LookupNamespace(key)
    }

    // ----- the search without a cache -----

    ghost predicate ScopeProvides(n: Option<QueryNamespace>, shapes: Shapes, key: string) {
      n.Some? && n.value in shapes && key in shapes[n.value]
    }

    /** Whether a table of this scope has a column: as a physical table, or as a named scope. */
    ghost predicate Provides(schema: Option<Schema>, shapes: Shapes, t: TableRef, key: string)
      requires Placed()
      reads this`cteSources, this`subqueryChildren, ancestors`cteSources, ancestors`subqueryChildren
    {
      || Defines(schema, key, t)
      || (t.Identifier() in subqueryChildren && ScopeProvides(Some(subqueryChildren[t.Identifier()]), shapes, key))
      || (t.Identifier() in cteSources && ScopeProvides(Some(cteSources[t.Identifier()]), shapes, key))
      || ScopeProvides(LookupNamespace(t.Identifier()), shapes, key)
    }

    /** The first table of a list that has a column. */
    ghost function FirstProviding(schema: Option<Schema>, shapes: Shapes, ts: seq<TableRef>, key: string)
      : Option<TableRef>
      requires Placed()
      reads this`cteSources, this`subqueryChildren, ancestors`cteSources, ancestors`subqueryChildren
    {
      if ts == [] then None
      else if Provides(schema, shapes, ts[0], key) then Some(ts[0])
      else FirstProviding(schema, shapes, ts[1..], key)
    }

    /** The table that an ordered search through the FROM clause finds for a column. */
    ghost function Scan(schema: Option<Schema>, shapes: Shapes, key: string): Option<TableRef>
      requires Placed()
      reads this`currentCtx, this`cteSources, this`subqueryChildren, ancestors`cteSources, ancestors`subqueryChildren
    {
      FirstProviding(schema, shapes, currentCtx, key)
    }

    /** Every cached column that the cache is asked for is bound to the table that the search finds. */
    ghost predicate CacheOk(schema: Option<Schema>, shapes: Shapes)
      requires Placed()
      reads this`columnCache, this`producedColumns, this`currentCtx, this`cteSources, this`subqueryChildren
      reads ancestors`cteSources, ancestors`subqueryChildren
    {
      forall k :: k in columnCache && k !in producedColumns ==> Scan(schema, shapes, k) == Some(columnCache[k])
    }

    /** All named scopes that this scope and its enclosing scopes hold are among `world`. */
    ghost predicate SeesOnly(world: set<QueryNamespace>)
      reads this`cteSources, this`subqueryChildren, ancestors`cteSources, ancestors`subqueryChildren
    {
      forall m :: m in ancestors + {this} ==> m.cteSources.Values <= world && m.subqueryChildren.Values <= world
    }

    lemma {:induction false} FoundIsSeen(world: set<QueryNamespace>, key: string)
      requires Placed() && SeesOnly(world) && LookupNamespace(key).Some?
      ensures LookupNamespace(key).value in world
      decreases depth
    {
      if key in cteSources {
        assert cteSources[key] in cteSources.Values;
      } else if key in subqueryChildren {
        assert subqueryChildren[key] in subqueryChildren.Values;
      } else {
        parent.FoundIsSeen(world, key);
      }
    }

    /** No name leads from this scope to `n`. */
    ghost predicate DoesNotSee(n: QueryNamespace)
      reads this`cteSources, this`subqueryChildren, ancestors`cteSources, ancestors`subqueryChildren
    {
      forall m :: m in ancestors + {this} ==> n !in m.cteSources.Values && n !in m.subqueryChildren.Values
    }

    lemma {:induction false} UnseenIsNotFound(n: QueryNamespace, key: string)
      requires Placed() && DoesNotSee(n)
      ensures LookupNamespace(key) != Some(n)
      decreases depth
    {
      assert this in ancestors + {this};
      if key in cteSources {
        assert cteSources[key] in cteSources.Values;
      } else if key in subqueryChildren {
        assert subqueryChildren[key] in subqueryChildren.Values;
      } else if parent != null {
        parent.UnseenIsNotFound(n, key);
      }
    }

    /** The search for a table asks nothing of `n`. */
    ghost predicate Avoids(t: TableRef, n: QueryNamespace)
      requires Placed()
      reads this`cteSources, this`subqueryChildren, ancestors`cteSources, ancestors`subqueryChildren
    {
      && n !in cteSources.Values && n !in subqueryChildren.Values
      && LookupNamespace(t.Identifier()) != Some(n)
    }

    lemma {:induction false} ProvidesSame(world: set<QueryNamespace>, n: QueryNamespace, schema: Option<Schema>,
        shapes: Shapes, other: Shapes, t: TableRef, key: string)
      requires Placed() && SeesOnly(world) && Avoids(t, n)
      requires forall m :: m in world && m != n ==> m in shapes && m in other && shapes[m] == other[m]
      ensures Provides(schema, shapes, t, key) <==> Provides(schema, other, t, key)
    {
      var id := t.Identifier();
      if LookupNamespace(id).Some? {
        FoundIsSeen(world, id);
      }
      assert this in ancestors + {this};
      if id in subqueryChildren {
        assert subqueryChildren[id] in subqueryChildren.Values;
      }
      if id in cteSources {
        assert cteSources[id] in cteSources.Values;
      }
      hide LookupNamespace;
    }

    /** A change of the shape of `n` does not matter to a search that does not ask `n`. */
    lemma {:induction false} SearchSame(world: set<QueryNamespace>, n: QueryNamespace, schema: Option<Schema>,
        shapes: Shapes, other: Shapes, ts: seq<TableRef>, key: string)
      requires Placed() && SeesOnly(world) && forall t :: t in ts ==> Avoids(t, n)
      requires forall m :: m in world && m != n ==> m in shapes && m in other && shapes[m] == other[m]
      ensures FirstProviding(schema, shapes, ts, key) == FirstProviding(schema, other, ts, key)
    {
      hide Provides;
      hide Avoids;
      hide SeesOnly;
      hide LookupNamespace;
      if ts != [] {
        assert ts[0] in ts;
        SearchSame(world, n, schema, shapes, other, ts[1..], key);
        ProvidesSame(world, n, schema, shapes, other, ts[0], key);
      }
    }

    lemma {:induction false} CacheStaysOk(world: set<QueryNamespace>, n: QueryNamespace, schema: Option<Schema>,
        shapes: Shapes, other: Shapes)
      requires Placed() && SeesOnly(world) && forall t :: t in currentCtx ==> Avoids(t, n)
      requires forall m :: m in world && m != n ==> m in shapes && m in other && shapes[m] == other[m]
      requires CacheOk(schema, shapes)
      ensures CacheOk(schema, other)
    {
      hide Avoids;
      hide SeesOnly;
      hide LookupNamespace;
      hide FirstProviding;
      forall k | k in columnCache ensures Scan(schema, other, k) == Scan(schema, shapes, k) {
        SearchSame(world, n, schema, shapes, other, currentCtx, k);
      }
    }

    // ----- operations -----

    /** `register_table` */
    method RegisterTable(table: TableRef)
      modifies this`columnCache, this`currentCtx, this`tableSources
      ensures columnCache == map[] && currentCtx == old(currentCtx) + [table]
      ensures forall k :: k in tableSources <==>
        k in old(tableSources) || (k != "" && (k == table.alias || k == table.fullName))
      ensures forall k :: k in tableSources ==>
        tableSources[k] == if k != "" && (k == table.alias || k == table.fullName) then table else old(tableSources[k])
    {
      columnCache := map[];
      currentCtx := currentCtx + [table];
      if table.alias != "" {
        tableSources := tableSources[table.alias := table];
      }
      if table.fullName != "" {
        tableSources := tableSources[table.fullName := table];
      }
    }

    /** Whether a table of this scope has a column, asked as the search does. */
    method TableProvides(table: TableRef, key: string, ghost world: set<QueryNamespace>) returns (found: bool)
      requires Placed() && SeesOnly(world) && cache.Valid()
      modifies cache`lookupCache
      ensures cache.Valid()
      ensures found <==> Provides(cache.schema, ShapesOf(world), table, key)
    {
      var id := table.Identifier();
      assert this in ancestors + {this};
      found := cache.DefinesColumn(key, table);
      if !found && id in subqueryChildren {
        assert subqueryChildren[id] in subqueryChildren.Values;
        found := key in subqueryChildren[id].outputShape;
      }
      if !found && id in cteSources {
        assert cteSources[id] in cteSources.Values;
        found := key in cteSources[id].outputShape;
      }
      if !found {
        var n := LookupNamespace(id);
        if n.Some? {
          FoundIsSeen(world, id);
          found := key in n.value.outputShape;
        }
      }
    }

    /** The loop of `lookup_column` through the tables of the FROM clause. */
    method Search(key: string, ghost world: set<QueryNamespace>) returns (matching: Option<TableRef>)
      requires Placed() && SeesOnly(world) && cache.Valid()
      modifies cache`lookupCache
      ensures cache.Valid() && matching == Scan(cache.schema, ShapesOf(world), key)
    {
      hide Provides;
      hide LookupNamespace;
      ghost var shapes := ShapesOf(world);
      for i := 0 to |currentCtx|
        invariant cache.Valid() && ShapesOf(world) == shapes
        invariant Scan(cache.schema, shapes, key) == FirstProviding(cache.schema, shapes, currentCtx[i..], key)
      {
        var found := TableProvides(currentCtx[i], key, world);
        assert currentCtx[i..][1..] == currentCtx[i + 1..];
        if found {
          return Some(currentCtx[i]);
        }
      }
      return None;
    }

    /** `lookup_column`. With a cache that agrees with the ordered search, the answer is the one of the search, and
        the cache still agrees. */
    method LookupColumn(key: string, ghost world: set<QueryNamespace>) returns (table: Option<TableRef>)
      requires Placed() && SeesOnly(world) && cache.Valid()
      modifies this`columnCache, cache`lookupCache
      ensures cache.Valid()
      ensures old(CacheOk(cache.schema, ShapesOf(world))) ==>
        && CacheOk(cache.schema, ShapesOf(world))
        && table == if key in producedColumns then None else Scan(cache.schema, ShapesOf(world), key)
      ensures columnCache == if table.None? then old(columnCache) else old(columnCache)[key := table.value]
      ensures table ==
        if key in producedColumns then None
        else if key in old(columnCache) then Some(old(columnCache)[key])
        else Scan(cache.schema, ShapesOf(world), key)
    {
      hide FirstProviding;
      hide LookupNamespace;
      hide Scan;
      if key in producedColumns {
        return None;
      }
      if key in columnCache {
        return Some(columnCache[key]);
      }
      table := Search(key, world);
      if table.Some? {
        columnCache := columnCache[key := table.value];
      }
    }

    /** `open_nested`: only temporary scopes leave the cache alone. */
    method OpenNested(alias: string, source: Source) returns (child: QueryNamespace)
      requires Placed()
      modifies this`columnCache, this`cteSources, this`subqueryChildren, this`currentCtx, this`tableSources
      modifies this`setopChildren
      ensures fresh(child) && child.parent == this && child.cache == cache && child.Placed()
      ensures child.outputShape == [] && child.columnCache == map[] && child.producedColumns == {}
      ensures child.cteSources == map[] && child.subqueryChildren == map[] && child.currentCtx == []
      ensures child.setopChildren == []
      ensures columnCache == if source == Temporary then old(columnCache) else map[]
      ensures cteSources == if source == Cte then old(cteSources)[alias := child] else old(cteSources)
      ensures subqueryChildren ==
        if source in {Subquery, Values} then old(subqueryChildren)[alias := child] else old(subqueryChildren)
      ensures currentCtx == old(currentCtx) + if source in {Subquery, Values} then [VirtualTable(alias)] else []
      ensures setopChildren == old(setopChildren) + if source == SetOp then [child] else []
    {
      if source != Temporary {
        columnCache := map[];
      }
      child := new QueryNamespace(cache, this);
      match source {
        case Cte =>
          cteSources := cteSources[alias := child];
        case Subquery =>
          AddSubquery(alias, child);
        case Values =>
          AddSubquery(alias, child);
        case SetOp =>
          setopChildren := setopChildren + [child];
        case Temporary =>
      }
    }

    method AddSubquery(alias: string, child: QueryNamespace)
      modifies this`subqueryChildren, this`currentCtx, this`tableSources
      ensures subqueryChildren == old(subqueryChildren)[alias := child]
      ensures currentCtx == old(currentCtx) + [VirtualTable(alias)]
    {
      subqueryChildren := subqueryChildren[alias := child];
      currentCtx := currentCtx + [VirtualTable(alias)];
      tableSources := tableSources[alias := VirtualTable(alias)];
    }

    // ----- output columns -----

    /** The scope that a virtual table stands for. */
    function Resolve(t: TableRef): Option<QueryNamespace>
      requires Placed()
      reads this`cteSources, this`subqueryChildren, ancestors`cteSources, ancestors`subqueryChildren
    {
      var n := LookupNamespace(t.alias);
      if n.None? && t.fullName != "" then LookupNamespace(t.fullName) else n
    }

    /** Adds the columns of a table in `SELECT *`. A virtual table without an alias stands for the scope of the virtual
        table before it; None stands for the error that there is no scope. */
    ghost function TakeTable(schema: Option<Schema>, shapes: Shapes, c: Collected, t: TableRef): Option<Collected>
      requires Placed()
      reads this`cteSources, this`subqueryChildren, ancestors`cteSources, ancestors`subqueryChildren
    {
      if !t.virtual then
        Some(c.(names := c.names + if schema.None? then [] else ColumnsIn(schema.value, t.fullName)))
      else
        var n := if t.alias == "" then c.last else Resolve(t);
        if n.None? || n.value !in shapes then None
        else Some(Collected(c.names + (if n.value == this then c.names else shapes[n.value]), n))
    }

    ghost function TakeTables(schema: Option<Schema>, shapes: Shapes, c: Collected, ts: seq<TableRef>)
      : Option<Collected>
      requires Placed()
      reads this`cteSources, this`subqueryChildren, ancestors`cteSources, ancestors`subqueryChildren
      decreases |ts|
    {
      if ts == [] then Some(c)
      else
        var next := TakeTable(schema, shapes, c, ts[0]);
        if next.None? then None else TakeTables(schema, shapes, next.value, ts[1..])
    }

    ghost function TakeProjection(schema: Option<Schema>, shapes: Shapes, c: Collected, p: Projection)
      : Option<Collected>
      requires Placed()
      reads this`currentCtx, this`cteSources, this`subqueryChildren, ancestors`cteSources, ancestors`subqueryChildren
    {
      match p
      case Named(name) => Some(c.(names := c.names + [name]))
      case ColumnOf(name) => Some(c.(names := c.names + [name]))
      case Star(t) => TakeTables(schema, shapes, c, if t.Some? then [t.value] else currentCtx)
      case Unnamed => Some(c)
    }

    ghost function TakeAll(schema: Option<Schema>, shapes: Shapes, c: Collected, ps: seq<Projection>): Option<Collected>
      requires Placed()
      reads this`currentCtx, this`cteSources, this`subqueryChildren, ancestors`cteSources, ancestors`subqueryChildren
      decreases |ps|
    {
      if ps == [] then Some(c)
      else
        var next := TakeProjection(schema, shapes, c, ps[0]);
        if next.None? then None else TakeAll(schema, shapes, next.value, ps[1..])
    }

    /** The columns that a SELECT clause names, in order. */
    ghost function SelectColumns(schema: Option<Schema>, shapes: Shapes, ps: seq<Projection>): Option<seq<string>>
      requires Placed()
      reads this`currentCtx, this`cteSources, this`subqueryChildren, ancestors`cteSources, ancestors`subqueryChildren
    {
      var all := TakeAll(schema, shapes, Collected([], None), ps);
      if all.None? then None else Some(all.value.names)
    }

    /** Appends the columns of a table; `last` is the scope of the virtual table before. */
    method AddTable(t: TableRef, last: Option<QueryNamespace>, ghost world: set<QueryNamespace>, ghost shapes: Shapes)
      returns (ok: bool, definingNsp: Option<QueryNamespace>)
      requires Placed() && cache.Valid() && SeesOnly(world) && (last.Some? ==> last.value in world)
      requires shapes.Keys == world && forall n :: n in world && n != this ==> shapes[n] == n.outputShape
      modifies this`outputShape, cache`lookupCache
      ensures cache.Valid() && (definingNsp.Some? ==> definingNsp.value in world)
      ensures TakeTable(cache.schema, shapes, Collected(old(outputShape), last), t)
           == if ok then Some(Collected(outputShape, definingNsp)) else None
    {
      ok, definingNsp := true, last;
      if !t.virtual {
        var physical := cache.ColumnsOf(t.fullName);
        outputShape := outputShape + physical;
        return;
      }
      if t.alias != "" {
        definingNsp := LookupNamespace(t.alias);
        if definingNsp.Some? {
          FoundIsSeen(world, t.alias);
        }
        if definingNsp.None? && t.fullName != "" {
          definingNsp := LookupNamespace(t.fullName);
          if definingNsp.Some? {
            FoundIsSeen(world, t.fullName);
          }
        }
      }
      if definingNsp.None? {
        ok := false;
        return;
      }
      outputShape := outputShape + definingNsp.value.outputShape;
    }

    method AddTables(tables: seq<TableRef>, last: Option<QueryNamespace>, ghost world: set<QueryNamespace>,
        ghost shapes: Shapes) returns (ok: bool, definingNsp: Option<QueryNamespace>)
      requires Placed() && cache.Valid() && SeesOnly(world) && (last.Some? ==> last.value in world)
      requires shapes.Keys == world && forall n :: n in world && n != this ==> shapes[n] == n.outputShape
      modifies this`outputShape, cache`lookupCache
      ensures cache.Valid() && (definingNsp.Some? ==> definingNsp.value in world)
      ensures TakeTables(cache.schema, shapes, Collected(old(outputShape), last), tables)
           == if ok then Some(Collected(outputShape, definingNsp)) else None
    {
      hide TakeTable;
      hide LookupNamespace;
      ok, definingNsp := true, last;
      ghost var start := Collected(outputShape, last);
      for j := 0 to |tables|
        invariant ok && cache.Valid() && (definingNsp.Some? ==> definingNsp.value in world)
        invariant TakeTables(cache.schema, shapes, start, tables)
               == TakeTables(cache.schema, shapes, Collected(outputShape, definingNsp), tables[j..])
      {
        assert tables[j..][0] == tables[j] && tables[j..][1..] == tables[j + 1..];
        ok, definingNsp := AddTable(tables[j], definingNsp, world, shapes);
        if !ok {
          return;
        }
      }
    }

    /** One turn of the loop of `determine_output_shape`. */
    method AddProjection(p: Projection, last: Option<QueryNamespace>, ghost world: set<QueryNamespace>,
        ghost shapes: Shapes) returns (ok: bool, definingNsp: Option<QueryNamespace>)
      requires Placed() && cache.Valid() && SeesOnly(world) && (last.Some? ==> last.value in world)
      requires shapes.Keys == world && forall n :: n in world && n != this ==> shapes[n] == n.outputShape
      modifies this`outputShape, this`producedColumns, cache`lookupCache
      ensures cache.Valid() && (definingNsp.Some? ==> definingNsp.value in world)
      ensures TakeProjection(cache.schema, shapes, Collected(old(outputShape), last), p)
           == if ok then Some(Collected(outputShape, definingNsp)) else None
      ensures producedColumns == old(producedColumns) + if p.Named? then {p.name} else {}
    {
      hide TakeTables;
      hide LookupNamespace;
      ok, definingNsp := true, last;
      match p {
        case Named(name) =>
          outputShape := outputShape + [name];
          producedColumns := producedColumns + {name};
        case ColumnOf(name) =>
          outputShape := outputShape + [name];
        case Star(t) =>
          ok, definingNsp := AddTables(if t.Some? then [t.value] else currentCtx, last, world, shapes);
        case Unnamed =>
      }
    }

    /** `determine_output_shape`: the columns of the SELECT clause, or those of the first query of a set operation. */
    method DetermineOutputShape(ps: seq<Projection>, ghost world: set<QueryNamespace>) returns (ok: bool)
      requires Placed() && cache.Valid() && SeesOnly(world) && this in world
      modifies this`outputShape, this`producedColumns, cache`lookupCache
      ensures cache.Valid()
      ensures setopChildren == [] ==>
        var columns := SelectColumns(cache.schema, old(ShapesOf(world)), ps);
        && ok == columns.Some?
        && (ok ==> outputShape == columns.value && producedColumns == old(producedColumns) + NamesIn(ps))
      ensures setopChildren != [] ==>
        && ok && producedColumns == old(producedColumns)
        && outputShape == if setopChildren[0] == this then [] else old(setopChildren[0].outputShape)
    {
      hide TakeProjection;
      hide LookupNamespace;
      ghost var shapes := ShapesOf(world);
      outputShape := [];
      if setopChildren != [] {
        outputShape := setopChildren[0].outputShape;
        return true;
      }
      ok := true;
      var definingNsp: Option<QueryNamespace> := None;
      assert ps[0..] == ps;
      for i := 0 to |ps|
        invariant ok && cache.Valid() && (definingNsp.Some? ==> definingNsp.value in world)
        invariant TakeAll(cache.schema, shapes, Collected([], None), ps)
               == TakeAll(cache.schema, shapes, Collected(outputShape, definingNsp), ps[i..])
        invariant producedColumns == old(producedColumns) + NamesIn(ps[..i])
      {
        NamesStep(ps, i);
        assert ps[i..][0] == ps[i] && ps[i..][1..] == ps[i + 1..];
        ok, definingNsp := AddProjection(ps[i], definingNsp, world, shapes);
        if !ok {
          return;
        }
      }
      assert ps[..|ps|] == ps;
    }

    lemma {:induction false} NamesStep(ps: seq<Projection>, i: nat)
      requires i < |ps|
      ensures NamesIn(ps[..i + 1]) == NamesIn(ps[..i]) + if ps[i].Named? then {ps[i].name} else {}
    {
      assert ps[..i + 1] == ps[..i] + [ps[i]];
    }
  }

  /** The names that a SELECT clause makes up itself. */
  function NamesIn(ps: seq<Projection>): set<string> { set p | p in ps && p.Named? :: p.name }

  ghost function ShapesOf(world: set<QueryNamespace>): Shapes
    reads world`outputShape
  {
    map n | n in world :: n.outputShape
  }
}
